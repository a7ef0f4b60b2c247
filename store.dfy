/** The table store every page talks to, as abstract in-memory tables: the rows of each table,
    the queries the pages issue against them, and one write primitive per insert, update or
    delete the pages perform. A write is either accepted or rejected by the store; a rejected
    write changes nothing. */
module Store {
  import opened Common
  import opened Ids

  /** Event times (`eventdate`), as instants; ISO-8601 strings of one format order the same way. */
  type Timestamp = int

  /** `discounttype` / catalog `type`: 'I' (in-house) or 'S' (special ID). */
  datatype Kind = InHouse | SpecialId

  /** Special-ID subtype: 'S' (Senior) or 'P' (PWD). */
  datatype Subtype = Senior | Pwd

  const PAID: string := "paid"
  const PARTIAL: string := "partial"
  const ORDER_EVENT: string := "order"
  const PAYMENT_EVENT: string := "payment"

  /** The fixed rate of every special-ID (Senior / PWD) discount. */
  const SPECIAL_ID_RATE: real := 0.12

  datatype Member = Member(memberid: string, membername: string, contactno: string)
  datatype Dish = Dish(dishid: int, dishname: string, dishprice: real)
  datatype Order = Order(ordersid: int, memberid: Option<string>, billid: Option<int>, orderdate: string)
  /** A row of `orderslist`; `ordersid` is null when the order insert that should have produced it failed. */
  datatype LineItem = LineItem(ordersid: Option<int>, dishid: int, quantity: int)
  datatype DiscountRow = DiscountRow(discountid: int, discounttype: Kind)
  datatype InHouseRow = InHouseRow(discountid: int, discountdesc: string, discountrate: real)
  datatype SpecialIdRow = SpecialIdRow(discountid: int, memberid: Option<string>, discountrate: real,
                                       specialidtype: Option<Subtype>)
  datatype SeniorRow = SeniorRow(discountid: int, idno: string, idbirthday: string)
  datatype PwdRow = PwdRow(discountid: int, idno: string, disability: string)
  datatype Bill = Bill(billid: int, discountid: Option<int>, tax: real, servicefee: real, total: real,
                       outstandingbalance: Option<real>)
  datatype Payment = Payment(paymentid: int, memberid: string, billid: int, paymentoption: string,
                             paymentdate: string, paidamount: real, paymentstatus: string,
                             outstandingbalance: Option<real>)
  datatype HistoryEntry = HistoryEntry(historyid: int, memberid: string, ordersid: Option<int>,
                                       paymentid: Option<int>, eventdate: Timestamp, eventtype: string)

  /** The whole store as a value. */
  datatype Tables = Tables(
    member: seq<Member>, dish: seq<Dish>, orders: seq<Order>, orderslist: seq<LineItem>,
    discount: seq<DiscountRow>, inhouse: seq<InHouseRow>, specialid: seq<SpecialIdRow>,
    senior: seq<SeniorRow>, pwd: seq<PwdRow>, bill: seq<Bill>, payment: seq<Payment>,
    memberhistory: seq<HistoryEntry>)

  // ---------------------------------------------------------------------------------------
  // Id columns, for the allocator

  function DishIds(rows: seq<Dish>): (r: seq<int>)
    ensures |r| == |rows| && forall i :: 0 <= i < |rows| ==> r[i] == rows[i].dishid
  { seq(|rows|, i requires 0 <= i < |rows| => rows[i].dishid) }

  function OrderIds(rows: seq<Order>): (r: seq<int>)
    ensures |r| == |rows| && forall i :: 0 <= i < |rows| ==> r[i] == rows[i].ordersid
  { seq(|rows|, i requires 0 <= i < |rows| => rows[i].ordersid) }

  function DiscountIds(rows: seq<DiscountRow>): (r: seq<int>)
    ensures |r| == |rows| && forall i :: 0 <= i < |rows| ==> r[i] == rows[i].discountid
  { seq(|rows|, i requires 0 <= i < |rows| => rows[i].discountid) }

  function BillIds(rows: seq<Bill>): (r: seq<int>)
    ensures |r| == |rows| && forall i :: 0 <= i < |rows| ==> r[i] == rows[i].billid
  { seq(|rows|, i requires 0 <= i < |rows| => rows[i].billid) }

  function PaymentIds(rows: seq<Payment>): (r: seq<int>)
    ensures |r| == |rows| && forall i :: 0 <= i < |rows| ==> r[i] == rows[i].paymentid
  { seq(|rows|, i requires 0 <= i < |rows| => rows[i].paymentid) }

  function HistoryIds(rows: seq<HistoryEntry>): (r: seq<int>)
    ensures |r| == |rows| && forall i :: 0 <= i < |rows| ==> r[i] == rows[i].historyid
  { seq(|rows|, i requires 0 <= i < |rows| => rows[i].historyid) }

  // ---------------------------------------------------------------------------------------
  // Look-ups (`find`, or the first row of `.select().eq(...)`)

  function FindDish(rows: seq<Dish>, id: int): (r: Option<Dish>)
    ensures r.None? <==> forall i :: 0 <= i < |rows| ==> rows[i].dishid != id
    ensures r.Some? ==> exists i :: 0 <= i < |rows| && rows[i] == r.value && rows[i].dishid == id &&
                          forall j :: 0 <= j < i ==> rows[j].dishid != id
  {
    if |rows| == 0 then None
    else if rows[0].dishid == id then Some(rows[0])
    else
      var r := FindDish(rows[1..], id);
      assert forall i :: 1 <= i < |rows| ==> rows[i] == rows[1..][i - 1];
      if r.Some? then
        ghost var k :| 0 <= k < |rows[1..]| && rows[1..][k] == r.value && rows[1..][k].dishid == id &&
                       forall j :: 0 <= j < k ==> rows[1..][j].dishid != id;
        assert rows[k + 1] == r.value;
        r
      else r
  }

  function FindOrder(rows: seq<Order>, id: int): (r: Option<Order>)
    ensures r.None? <==> forall i :: 0 <= i < |rows| ==> rows[i].ordersid != id
    ensures r.Some? ==> exists i :: 0 <= i < |rows| && rows[i] == r.value && rows[i].ordersid == id &&
                          forall j :: 0 <= j < i ==> rows[j].ordersid != id
  {
    if |rows| == 0 then None
    else if rows[0].ordersid == id then Some(rows[0])
    else
      var r := FindOrder(rows[1..], id);
      assert forall i :: 1 <= i < |rows| ==> rows[i] == rows[1..][i - 1];
      if r.Some? then
        ghost var k :| 0 <= k < |rows[1..]| && rows[1..][k] == r.value && rows[1..][k].ordersid == id &&
                       forall j :: 0 <= j < k ==> rows[1..][j].ordersid != id;
        assert rows[k + 1] == r.value;
        r
      else r
  }

  function FindBill(rows: seq<Bill>, id: int): (r: Option<Bill>)
    ensures r.None? <==> forall i :: 0 <= i < |rows| ==> rows[i].billid != id
    ensures r.Some? ==> exists i :: 0 <= i < |rows| && rows[i] == r.value && rows[i].billid == id &&
                          forall j :: 0 <= j < i ==> rows[j].billid != id
  {
    if |rows| == 0 then None
    else if rows[0].billid == id then Some(rows[0])
    else
      var r := FindBill(rows[1..], id);
      assert forall i :: 1 <= i < |rows| ==> rows[i] == rows[1..][i - 1];
      if r.Some? then
        ghost var k :| 0 <= k < |rows[1..]| && rows[1..][k] == r.value && rows[1..][k].billid == id &&
                       forall j :: 0 <= j < k ==> rows[1..][j].billid != id;
        assert rows[k + 1] == r.value;
        r
      else r
  }

  function FindPayment(rows: seq<Payment>, id: int): (r: Option<Payment>)
    ensures r.None? <==> forall i :: 0 <= i < |rows| ==> rows[i].paymentid != id
    ensures r.Some? ==> exists i :: 0 <= i < |rows| && rows[i] == r.value && rows[i].paymentid == id &&
                          forall j :: 0 <= j < i ==> rows[j].paymentid != id
  {
    if |rows| == 0 then None
    else if rows[0].paymentid == id then Some(rows[0])
    else
      var r := FindPayment(rows[1..], id);
      assert forall i :: 1 <= i < |rows| ==> rows[i] == rows[1..][i - 1];
      if r.Some? then
        ghost var k :| 0 <= k < |rows[1..]| && rows[1..][k] == r.value && rows[1..][k].paymentid == id &&
                       forall j :: 0 <= j < k ==> rows[1..][j].paymentid != id;
        assert rows[k + 1] == r.value;
        r
      else r
  }

  /** `.from('member').select('*').eq('memberid', id)` returned at least one row. */
  predicate MemberExists(rows: seq<Member>, id: string) {
    exists i :: 0 <= i < |rows| && rows[i].memberid == id
  }

  /** `.from('orderslist').select('*').eq('ordersid', oid)`, in table order. */
  function ItemsOf(rows: seq<LineItem>, oid: int): (r: seq<LineItem>)
    ensures forall x :: x in r <==> x in rows && x.ordersid == Some(oid)
    ensures |r| <= |rows|
  {
    if |rows| == 0 then []
    else (if rows[0].ordersid == Some(oid) then [rows[0]] else []) + ItemsOf(rows[1..], oid)
  }

  // ---------------------------------------------------------------------------------------
  // The effect of updates and deletes on one table

  /** `.from('orders').update({ billid }).eq('ordersid', oid)`. */
  function LinkBill(rows: seq<Order>, oid: int, bid: int): (r: seq<Order>)
    ensures |r| == |rows|
    ensures forall i :: 0 <= i < |rows| ==>
              r[i] == if rows[i].ordersid == oid then rows[i].(billid := Some(bid)) else rows[i]
  {
    if |rows| == 0 then []
    else [if rows[0].ordersid == oid then rows[0].(billid := Some(bid)) else rows[0]]
         + LinkBill(rows[1..], oid, bid)
  }

  /** `.from('orders').update({ billid: null }).eq('billid', bid)`. */
  function UnlinkBill(rows: seq<Order>, bid: int): (r: seq<Order>)
    ensures |r| == |rows|
    ensures forall i :: 0 <= i < |rows| ==>
              r[i] == if rows[i].billid == Some(bid) then rows[i].(billid := None) else rows[i]
  {
    if |rows| == 0 then []
    else [if rows[0].billid == Some(bid) then rows[0].(billid := None) else rows[0]]
         + UnlinkBill(rows[1..], bid)
  }

  /** `.from('orders').update({ billid, orderdate }).eq('ordersid', oid)`. */
  function SetOrderFields(rows: seq<Order>, oid: int, billid: Option<int>, orderdate: string): (r: seq<Order>)
    ensures |r| == |rows|
    ensures forall i :: 0 <= i < |rows| ==>
              r[i] == if rows[i].ordersid == oid then rows[i].(billid := billid, orderdate := orderdate)
                      else rows[i]
  {
    if |rows| == 0 then []
    else [if rows[0].ordersid == oid then rows[0].(billid := billid, orderdate := orderdate) else rows[0]]
         + SetOrderFields(rows[1..], oid, billid, orderdate)
  }

  /** `.from('bill').update({ outstandingbalance }).eq('billid', bid)`. */
  function SetBalance(rows: seq<Bill>, bid: int, balance: Option<real>): (r: seq<Bill>)
    ensures |r| == |rows|
    ensures forall i :: 0 <= i < |rows| ==>
              r[i] == if rows[i].billid == bid then rows[i].(outstandingbalance := balance) else rows[i]
  {
    if |rows| == 0 then []
    else [if rows[0].billid == bid then rows[0].(outstandingbalance := balance) else rows[0]]
         + SetBalance(rows[1..], bid, balance)
  }

  /** `.from('inhouse').update({ discountdesc, discountrate }).eq('discountid', id)`. */
  function SetInHouse(rows: seq<InHouseRow>, id: int, desc: string, rate: real): (r: seq<InHouseRow>)
    ensures |r| == |rows|
    ensures forall i :: 0 <= i < |rows| ==>
              r[i] == if rows[i].discountid == id then rows[i].(discountdesc := desc, discountrate := rate)
                      else rows[i]
  {
    if |rows| == 0 then []
    else [if rows[0].discountid == id then rows[0].(discountdesc := desc, discountrate := rate) else rows[0]]
         + SetInHouse(rows[1..], id, desc, rate)
  }

  /** `.from('senior').update({ idno, idbirthday }).eq('discountid', id)`. */
  function SetSenior(rows: seq<SeniorRow>, id: int, idno: string, birthday: string): (r: seq<SeniorRow>)
    ensures |r| == |rows|
    ensures forall i :: 0 <= i < |rows| ==>
              r[i] == if rows[i].discountid == id then rows[i].(idno := idno, idbirthday := birthday)
                      else rows[i]
  {
    if |rows| == 0 then []
    else [if rows[0].discountid == id then rows[0].(idno := idno, idbirthday := birthday) else rows[0]]
         + SetSenior(rows[1..], id, idno, birthday)
  }

  /** `.from('pwd').update({ idno, disability }).eq('discountid', id)`. */
  function SetPwd(rows: seq<PwdRow>, id: int, idno: string, disability: string): (r: seq<PwdRow>)
    ensures |r| == |rows|
    ensures forall i :: 0 <= i < |rows| ==>
              r[i] == if rows[i].discountid == id then rows[i].(idno := idno, disability := disability)
                      else rows[i]
  {
    if |rows| == 0 then []
    else [if rows[0].discountid == id then rows[0].(idno := idno, disability := disability) else rows[0]]
         + SetPwd(rows[1..], id, idno, disability)
  }

  /** `.from('dish').update({ dishname, dishprice }).eq('dishid', id)`. */
  function SetDish(rows: seq<Dish>, id: int, name: string, price: real): (r: seq<Dish>)
    ensures |r| == |rows|
    ensures forall i :: 0 <= i < |rows| ==>
              r[i] == if rows[i].dishid == id then rows[i].(dishname := name, dishprice := price) else rows[i]
  {
    if |rows| == 0 then []
    else [if rows[0].dishid == id then rows[0].(dishname := name, dishprice := price) else rows[0]]
         + SetDish(rows[1..], id, name, price)
  }

  /** `.from('orderslist').delete().eq('ordersid', oid)`. */
  function WithoutItemsOf(rows: seq<LineItem>, oid: int): (r: seq<LineItem>)
    ensures forall x :: x in r <==> x in rows && x.ordersid != Some(oid)
    ensures |r| <= |rows|
  {
    if |rows| == 0 then []
    else (if rows[0].ordersid != Some(oid) then [rows[0]] else []) + WithoutItemsOf(rows[1..], oid)
  }

  /** `.from('orders').delete().eq('ordersid', oid)`. */
  function WithoutOrder(rows: seq<Order>, oid: int): (r: seq<Order>)
    ensures forall x :: x in r <==> x in rows && x.ordersid != oid
  {
    if |rows| == 0 then []
    else (if rows[0].ordersid != oid then [rows[0]] else []) + WithoutOrder(rows[1..], oid)
  }

  /** `.from('bill').delete().eq('billid', bid)`. */
  function WithoutBill(rows: seq<Bill>, bid: int): (r: seq<Bill>)
    ensures forall x :: x in r <==> x in rows && x.billid != bid
  {
    if |rows| == 0 then []
    else (if rows[0].billid != bid then [rows[0]] else []) + WithoutBill(rows[1..], bid)
  }

  /** `.from('discount').delete().eq('discountid', id)`. */
  function WithoutDiscount(rows: seq<DiscountRow>, id: int): (r: seq<DiscountRow>)
    ensures forall x :: x in r <==> x in rows && x.discountid != id
  {
    if |rows| == 0 then []
    else (if rows[0].discountid != id then [rows[0]] else []) + WithoutDiscount(rows[1..], id)
  }

  /** `.from('dish').delete().eq('dishid', id)`. */
  function WithoutDish(rows: seq<Dish>, id: int): (r: seq<Dish>)
    ensures forall x :: x in r <==> x in rows && x.dishid != id
  {
    if |rows| == 0 then []
    else (if rows[0].dishid != id then [rows[0]] else []) + WithoutDish(rows[1..], id)
  }

  /** The line items of one order in a concatenation are those of each part, in order. */
  lemma {:induction false} ItemsOfAppend(a: seq<LineItem>, b: seq<LineItem>, oid: int)
    ensures ItemsOf(a + b, oid) == ItemsOf(a, oid) + ItemsOf(b, oid)
  {
    if |a| == 0 {
      assert a + b == b;
    } else {
      assert (a + b)[0] == a[0];
      assert (a + b)[1..] == a[1..] + b;
      ItemsOfAppend(a[1..], b, oid);
    }
  }

  /** Rows that all belong to order `oid` are all selected, in order. */
  lemma {:induction false} ItemsOfOwn(rows: seq<LineItem>, oid: int)
    requires forall i :: 0 <= i < |rows| ==> rows[i].ordersid == Some(oid)
    ensures ItemsOf(rows, oid) == rows
  {
    if |rows| > 0 {
      ItemsOfOwn(rows[1..], oid);
      assert [rows[0]] + rows[1..] == rows;
    }
  }

  /** After `WithoutItemsOf(rows, oid)` no line item of order `oid` is left. */
  lemma {:induction false} ItemsOfWithout(rows: seq<LineItem>, oid: int)
    ensures ItemsOf(WithoutItemsOf(rows, oid), oid) == []
  {
    if |rows| > 0 {
      var head := if rows[0].ordersid != Some(oid) then [rows[0]] else [];
      assert WithoutItemsOf(rows, oid) == head + WithoutItemsOf(rows[1..], oid);
      ItemsOfAppend(head, WithoutItemsOf(rows[1..], oid), oid);
      ItemsOfWithout(rows[1..], oid);
    }
  }

  /** Rows appended under order `oid` to a table holding none of that order are exactly the
      order's line items. */
  lemma ItemsOfNewOrder(rows: seq<LineItem>, added: seq<LineItem>, oid: int)
    requires forall i :: 0 <= i < |rows| ==> rows[i].ordersid != Some(oid)
    requires forall i :: 0 <= i < |added| ==> added[i].ordersid == Some(oid)
    ensures ItemsOf(rows + added, oid) == added
  {
    ItemsOfAppend(rows, added, oid);
    ItemsOfOwn(added, oid);
    ItemsOfNone(rows, oid);
  }

  lemma {:induction false} ItemsOfNone(rows: seq<LineItem>, oid: int)
    requires forall i :: 0 <= i < |rows| ==> rows[i].ordersid != Some(oid)
    ensures ItemsOf(rows, oid) == []
  {
    if |rows| > 0 {
      ItemsOfNone(rows[1..], oid);
    }
  }

  // ---------------------------------------------------------------------------------------
  // The store itself

  class Db {
    var member: seq<Member>
    var dish: seq<Dish>
    var orders: seq<Order>
    var orderslist: seq<LineItem>
    var discount: seq<DiscountRow>
    var inhouse: seq<InHouseRow>
    var specialid: seq<SpecialIdRow>
    var senior: seq<SeniorRow>
    var pwd: seq<PwdRow>
    var bill: seq<Bill>
    var payment: seq<Payment>
    var memberhistory: seq<HistoryEntry>

    /** The current contents of every table. */
    function Snapshot(): Tables
      reads this
    {
      Tables(member, dish, orders, orderslist, discount, inhouse, specialid, senior, pwd, bill,
             payment, memberhistory)
    }

    constructor (t: Tables)
      ensures Snapshot() == t
    {
      member, dish, orders, orderslist := t.member, t.dish, t.orders, t.orderslist;
      discount, inhouse, specialid, senior, pwd := t.discount, t.inhouse, t.specialid, t.senior, t.pwd;
      bill, payment, memberhistory := t.bill, t.payment, t.memberhistory;
    }

    // Inserts. Each appends one row when the store accepts the write.

    method InsertDish(row: Dish, accepted: bool)
      modifies this
      ensures Snapshot() == if accepted then old(Snapshot()).(dish := old(dish) + [row]) else old(Snapshot())
    {
      if accepted { dish := dish + [row]; }
    }

    method InsertOrder(row: Order, accepted: bool)
      modifies this
      ensures Snapshot() == if accepted then old(Snapshot()).(orders := old(orders) + [row]) else old(Snapshot())
    {
      if accepted { orders := orders + [row]; }
    }

    method InsertLineItem(row: LineItem, accepted: bool)
      modifies this
      ensures Snapshot() == if accepted then old(Snapshot()).(orderslist := old(orderslist) + [row])
                            else old(Snapshot())
    {
      if accepted { orderslist := orderslist + [row]; }
    }

    method InsertDiscount(row: DiscountRow, accepted: bool)
      modifies this
      ensures Snapshot() == if accepted then old(Snapshot()).(discount := old(discount) + [row])
                            else old(Snapshot())
    {
      if accepted { discount := discount + [row]; }
    }

    method InsertInHouse(row: InHouseRow, accepted: bool)
      modifies this
      ensures Snapshot() == if accepted then old(Snapshot()).(inhouse := old(inhouse) + [row])
                            else old(Snapshot())
    {
      if accepted { inhouse := inhouse + [row]; }
    }

    method InsertSpecialId(row: SpecialIdRow, accepted: bool)
      modifies this
      ensures Snapshot() == if accepted then old(Snapshot()).(specialid := old(specialid) + [row])
                            else old(Snapshot())
    {
      if accepted { specialid := specialid + [row]; }
    }

    method InsertSenior(row: SeniorRow, accepted: bool)
      modifies this
      ensures Snapshot() == if accepted then old(Snapshot()).(senior := old(senior) + [row]) else old(Snapshot())
    {
      if accepted { senior := senior + [row]; }
    }

    method InsertPwd(row: PwdRow, accepted: bool)
      modifies this
      ensures Snapshot() == if accepted then old(Snapshot()).(pwd := old(pwd) + [row]) else old(Snapshot())
    {
      if accepted { pwd := pwd + [row]; }
    }

    method InsertBill(row: Bill, accepted: bool)
      modifies this
      ensures Snapshot() == if accepted then old(Snapshot()).(bill := old(bill) + [row]) else old(Snapshot())
    {
      if accepted { bill := bill + [row]; }
    }

    method InsertPayment(row: Payment, accepted: bool)
      modifies this
      ensures Snapshot() == if accepted then old(Snapshot()).(payment := old(payment) + [row])
                            else old(Snapshot())
    {
      if accepted { payment := payment + [row]; }
    }

    method InsertHistory(row: HistoryEntry, accepted: bool)
      modifies this
      ensures Snapshot() == if accepted then old(Snapshot()).(memberhistory := old(memberhistory) + [row])
                            else old(Snapshot())
    {
      if accepted { memberhistory := memberhistory + [row]; }
    }

    // Updates and deletes.

    method UpdateOrderBill(oid: int, bid: int, accepted: bool)
      modifies this
      ensures Snapshot() == if accepted then old(Snapshot()).(orders := LinkBill(old(orders), oid, bid))
                            else old(Snapshot())
    {
      if accepted { orders := LinkBill(orders, oid, bid); }
    }

    method ClearOrderBill(bid: int, accepted: bool)
      modifies this
      ensures Snapshot() == if accepted then old(Snapshot()).(orders := UnlinkBill(old(orders), bid))
                            else old(Snapshot())
    {
      if accepted { orders := UnlinkBill(orders, bid); }
    }

    method UpdateOrderFields(oid: int, billid: Option<int>, orderdate: string, accepted: bool)
      modifies this
      ensures Snapshot() == if accepted
                            then old(Snapshot()).(orders := SetOrderFields(old(orders), oid, billid, orderdate))
                            else old(Snapshot())
    {
      if accepted { orders := SetOrderFields(orders, oid, billid, orderdate); }
    }

    method UpdateBalance(bid: int, balance: Option<real>, accepted: bool)
      modifies this
      ensures Snapshot() == if accepted then old(Snapshot()).(bill := SetBalance(old(bill), bid, balance))
                            else old(Snapshot())
    {
      if accepted { bill := SetBalance(bill, bid, balance); }
    }

    method UpdateInHouse(id: int, desc: string, rate: real, accepted: bool)
      modifies this
      ensures Snapshot() == if accepted then old(Snapshot()).(inhouse := SetInHouse(old(inhouse), id, desc, rate))
                            else old(Snapshot())
    {
      if accepted { inhouse := SetInHouse(inhouse, id, desc, rate); }
    }

    method UpdateSenior(id: int, idno: string, birthday: string, accepted: bool)
      modifies this
      ensures Snapshot() == if accepted then old(Snapshot()).(senior := SetSenior(old(senior), id, idno, birthday))
                            else old(Snapshot())
    {
      if accepted { senior := SetSenior(senior, id, idno, birthday); }
    }

    method UpdatePwd(id: int, idno: string, disability: string, accepted: bool)
      modifies this
      ensures Snapshot() == if accepted then old(Snapshot()).(pwd := SetPwd(old(pwd), id, idno, disability))
                            else old(Snapshot())
    {
      if accepted { pwd := SetPwd(pwd, id, idno, disability); }
    }

    method UpdateDish(id: int, name: string, price: real, accepted: bool)
      modifies this
      ensures Snapshot() == if accepted then old(Snapshot()).(dish := SetDish(old(dish), id, name, price))
                            else old(Snapshot())
    {
      if accepted { dish := SetDish(dish, id, name, price); }
    }

    method DeleteLineItemsOf(oid: int, accepted: bool)
      modifies this
      ensures Snapshot() == if accepted then old(Snapshot()).(orderslist := WithoutItemsOf(old(orderslist), oid))
                            else old(Snapshot())
    {
      if accepted { orderslist := WithoutItemsOf(orderslist, oid); }
    }

    method DeleteOrder(oid: int, accepted: bool)
      modifies this
      ensures Snapshot() == if accepted then old(Snapshot()).(orders := WithoutOrder(old(orders), oid))
                            else old(Snapshot())
    {
      if accepted { orders := WithoutOrder(orders, oid); }
    }

    method DeleteBill(bid: int, accepted: bool)
      modifies this
      ensures Snapshot() == if accepted then old(Snapshot()).(bill := WithoutBill(old(bill), bid))
                            else old(Snapshot())
    {
      if accepted { bill := WithoutBill(bill, bid); }
    }

    method DeleteDiscount(id: int, accepted: bool)
      modifies this
      ensures Snapshot() == if accepted then old(Snapshot()).(discount := WithoutDiscount(old(discount), id))
                            else old(Snapshot())
    {
      if accepted { discount := WithoutDiscount(discount, id); }
    }

    method DeleteDish(id: int, accepted: bool)
      modifies this
      ensures Snapshot() == if accepted then old(Snapshot()).(dish := WithoutDish(old(dish), id))
                            else old(Snapshot())
    {
      if accepted { dish := WithoutDish(dish, id); }
    }
  }
}
