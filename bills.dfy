/** Bill pricing and generation (src/pages/Bills.jsx): `calculateTotal`, `handleGenerateBill`
    with its on-the-fly Special-ID discount, and `handleDelete`. */
module Bills {
  import opened Common
  import opened Ids
  import opened Store
  import opened Catalog

  /** `form.discountid`: '' (no discount), the literal 'specialid', or an in-house entry's id. */
  datatype Choice = NoDiscount | SpecialIdChoice | CatalogChoice(id: int)

  /** The `discountid` that `calculateTotal` receives: the form's choice, or, once a Special-ID
      discount has been created, the new numeric id that replaced it. */
  datatype PriceArg = FromForm(choice: Choice) | Created(id: int)

  datatype BillForm = BillForm(orderid: Option<int>, discountid: Choice, tax: real, servicefee: real,
                               specialidType: Option<Subtype>, specialidNo: string,
                               specialidBirthday: string, specialidDisability: string)

  /** What the page loaded when it mounted: `orders`, `dishes` and the `discounts` catalog. */
  datatype BillsView = BillsView(orders: seq<Order>, dishes: seq<Dish>, discounts: seq<Entry>)

  datatype BillError =
    | NoOrderSelected | SpecialIdIncomplete | BirthdayMissing | DisabilityMissing
    | DiscountInsertFailed | SpecialIdInsertFailed | SeniorInsertFailed | PwdInsertFailed
    | BillInsertFailed

  datatype BillResult = Generated(billid: int) | Rejected(error: BillError)

  /** The writes of `handleGenerateBill`, in the order it issues them. */
  datatype BillWrite = DiscountInsert | SpecialIdInsert | DetailInsert | BillInsert | OrderLink

  /** The writes of `handleDelete`. */
  datatype DeleteWrite = BillDelete | OrderUnlink

  // ---------------------------------------------------------------------------------------
  // Pricing

  /** What one line item adds to the subtotal: price × quantity when its dish is on the loaded
      menu, nothing otherwise. */
  function LineAmount(item: LineItem, dishes: seq<Dish>): real {
    if FindDish(dishes, item.dishid).Some? then PricedLine(item, dishes) else 0.0
  }

  /** The subtotal as the loop accumulates it, left to right. */
  function Subtotal(items: seq<LineItem>, dishes: seq<Dish>): real {
    if |items| == 0 then 0.0
    else Subtotal(items[..|items| - 1], dishes) + LineAmount(items[|items| - 1], dishes)
  }

  /** The items whose dish is on the menu. */
  function KnownItems(items: seq<LineItem>, dishes: seq<Dish>): (r: seq<LineItem>)
    ensures forall x :: x in r <==> x in items && FindDish(dishes, x.dishid).Some?
  {
    if |items| == 0 then []
    else
      var init := items[..|items| - 1];
      assert forall x :: x in items <==> x in init || x == items[|items| - 1];
      KnownItems(init, dishes) + (if FindDish(dishes, items[|items| - 1].dishid).Some? then [items[|items| - 1]] else [])
  }

  /** The price of one unit of a dish on the menu. */
  function Price(dishes: seq<Dish>, id: int): real {
    var d := FindDish(dishes, id);
    if d.Some? then d.value.dishprice else 0.0
  }

  function PricedLine(item: LineItem, dishes: seq<Dish>): real {
    Price(dishes, item.dishid) * item.quantity as real
  }

  /** Σ price × quantity, each item priced by its dish. */
  function PricedSum(items: seq<LineItem>, dishes: seq<Dish>): real {
    if |items| == 0 then 0.0
    else PricedSum(items[..|items| - 1], dishes) + PricedLine(items[|items| - 1], dishes)
  }

  /** The discount amount: none for an empty choice or an id missing from the catalog snapshot;
      subtotal × rate for an id in it; subtotal × 0.12 for the literal 'specialid'. A created id
      of 0 is falsy and gives no discount. */
  function DiscountAmount(subtotal: real, arg: PriceArg, discounts: seq<Entry>): real {
    match arg
    case FromForm(NoDiscount) => 0.0
    case FromForm(SpecialIdChoice) => subtotal * SPECIAL_ID_RATE
    case FromForm(CatalogChoice(id)) => CatalogDiscount(subtotal, id, discounts)
    case Created(id) => if id == 0 then 0.0 else CatalogDiscount(subtotal, id, discounts)
  }

  function CatalogDiscount(subtotal: real, id: int, discounts: seq<Entry>): real {
    var e := FindEntry(discounts, id);
    if e.Some? then subtotal * e.value.Rate() else 0.0
  }

  /** `total = p + p·tax + p·servicefee` with `p = subtotal − discount`: tax and fee are both
      levied on the discounted amount, neither on the other. */
  function BillTotal(subtotal: real, discount: real, tax: real, servicefee: real): real {
    var p := subtotal - discount;
    p + p * tax + p * servicefee
  }

  /** The total is the discounted amount scaled by 1 + tax + fee. */
  lemma BillTotalFactored(subtotal: real, discount: real, tax: real, servicefee: real)
    ensures BillTotal(subtotal, discount, tax, servicefee) == (subtotal - discount) * (1.0 + tax + servicefee)
  {
    var p := subtotal - discount;
    assert p * (1.0 + tax + servicefee) == p + p * tax + p * servicefee;
  }

  /** The total `calculateTotal` returns for an order, given the store and the page's snapshots. */
  function TotalFor(orderslist: seq<LineItem>, orderid: int, arg: PriceArg, tax: real, servicefee: real,
                    dishes: seq<Dish>, discounts: seq<Entry>): real
  {
    var s := Subtotal(ItemsOf(orderslist, orderid), dishes);
    BillTotal(s, DiscountAmount(s, arg, discounts), tax, servicefee)
  }

  /** The `for (const od of orderDishes)` loop of `calculateTotal`. */
  method AccumulateSubtotal(orderDishes: seq<LineItem>, dishes: seq<Dish>) returns (subtotal: real)
    ensures subtotal == Subtotal(orderDishes, dishes)
  {
    subtotal := 0.0;
    for i := 0 to |orderDishes|
      invariant subtotal == Subtotal(orderDishes[..i], dishes)
    {
      assert orderDishes[..i + 1][..i] == orderDishes[..i];
      var dish := FindDish(dishes, orderDishes[i].dishid);
      if dish.Some? {
        subtotal := subtotal + dish.value.dishprice * orderDishes[i].quantity as real;
        assert dish.value.dishprice * orderDishes[i].quantity as real == LineAmount(orderDishes[i], dishes);
      }
    }
    assert orderDishes[..|orderDishes|] == orderDishes;
  }

  /** `calculateTotal`: query the order's line items, accumulate the subtotal, apply at most one
      discount, then tax and service fee. */
  method CalculateTotal(db: Db, orderid: int, arg: PriceArg, tax: real, servicefee: real,
                        dishes: seq<Dish>, discounts: seq<Entry>) returns (total: real)
    ensures total == TotalFor(db.orderslist, orderid, arg, tax, servicefee, dishes, discounts)
  {
    var subtotal := AccumulateSubtotal(ItemsOf(db.orderslist, orderid), dishes);
    var discount := ChooseDiscount(subtotal, arg, discounts);
    total := BillTotal(subtotal, discount, tax, servicefee);
  }

  /** The discount branch of `calculateTotal`: at most one discount, from the form's choice or
      from the id a Special-ID bill was created with. */
  method ChooseDiscount(subtotal: real, arg: PriceArg, discounts: seq<Entry>) returns (discount: real)
    ensures discount == DiscountAmount(subtotal, arg, discounts)
  {
    discount := 0.0;
    match arg {
      case FromForm(NoDiscount) =>
      case FromForm(SpecialIdChoice) =>
        discount := subtotal * SPECIAL_ID_RATE;
      case FromForm(CatalogChoice(k)) =>
        var d := FindEntry(discounts, k);
        if d.Some? { discount := subtotal * d.value.Rate(); }
      case Created(k) =>
        if k != 0 {
          var d := FindEntry(discounts, k);
          if d.Some? { discount := subtotal * d.value.Rate(); }
        }
    }
  }

  // ---------------------------------------------------------------------------------------
  // Generating a bill

  /** The early returns of `handleGenerateBill`, before any store access. */
  function Validate(form: BillForm): (r: Option<BillError>)
    ensures r == Some(NoOrderSelected) <==> form.orderid.None?
    ensures r.None? <==>
              form.orderid.Some? &&
              (form.discountid == SpecialIdChoice ==>
                 form.specialidType.Some? && form.specialidNo != "" &&
                 (form.specialidType == Some(Senior) ==> form.specialidBirthday != "") &&
                 (form.specialidType == Some(Pwd) ==> form.specialidDisability != ""))
  {
    if form.orderid.None? then Some(NoOrderSelected)
    else if form.discountid == SpecialIdChoice then
      if form.specialidType.None? || form.specialidNo == "" then Some(SpecialIdIncomplete)
      else if form.specialidType == Some(Senior) && form.specialidBirthday == "" then Some(BirthdayMissing)
      else if form.specialidType == Some(Pwd) && form.specialidDisability == "" then Some(DisabilityMissing)
      else None
    else None
  }

  /** `selectedMemberId`: the member of the selected order in the loaded orders, or null. */
  function SelectedMember(view: BillsView, orderid: int): Option<string> {
    var o := FindOrder(view.orders, orderid);
    if o.Some? then o.value.memberid else None
  }

  /** The bill's `discountid: discountid || null`. */
  function StoredDiscountId(arg: PriceArg): Option<int>
    requires arg != FromForm(SpecialIdChoice)
  {
    match arg
    case FromForm(NoDiscount) => None
    case FromForm(CatalogChoice(id)) => Some(id)
    case Created(id) => if id == 0 then None else Some(id)
  }

  /** Allocate the bill id, price the order, insert the bill, then link the order to it. */
  function OpenBill(t: Tables, form: BillForm, view: BillsView, arg: PriceArg, fails: set<BillWrite>)
    : (Tables, BillResult)
    requires form.orderid.Some? && arg != FromForm(SpecialIdChoice)
  {
    var oid := form.orderid.value;
    var bid := NextId(BillIds(t.bill));
    var total := TotalFor(t.orderslist, oid, arg, form.tax, form.servicefee, view.dishes, view.discounts);
    if BillInsert in fails then (t, Rejected(BillInsertFailed))
    else
      var t1 := t.(bill := t.bill + [Bill(bid, StoredDiscountId(arg), form.tax, form.servicefee, total, Some(total))]);
      (if OrderLink in fails then t1 else t1.(orders := LinkBill(t1.orders, oid, bid)), Generated(bid))
  }

  /** The Special-ID creation writes (`discount`, then `specialid` with rate 0.12, then `senior`
      or `pwd`), all under the id `did`; stops at the first rejected write. */
  function CreateSpecialId(t: Tables, form: BillForm, view: BillsView, did: int, fails: set<BillWrite>)
    : (Tables, Option<BillError>)
    requires form.orderid.Some? && form.specialidType.Some?
  {
    var kind := form.specialidType.value;
    if DiscountInsert in fails then (t, Some(DiscountInsertFailed))
    else
      var t1 := t.(discount := t.discount + [DiscountRow(did, SpecialId)]);
      if SpecialIdInsert in fails then (t1, Some(SpecialIdInsertFailed))
      else
        var t2 := t1.(specialid := t1.specialid +
                        [SpecialIdRow(did, SelectedMember(view, form.orderid.value), SPECIAL_ID_RATE, Some(kind))]);
        if DetailInsert in fails then (t2, Some(if kind == Senior then SeniorInsertFailed else PwdInsertFailed))
        else if kind == Senior then (t2.(senior := t2.senior + [SeniorRow(did, form.specialidNo, form.specialidBirthday)]), None)
        else (t2.(pwd := t2.pwd + [PwdRow(did, form.specialidNo, form.specialidDisability)]), None)
  }

  /** The whole of `handleGenerateBill`: the new tables and the outcome. */
  function GenerateBillSpec(t: Tables, form: BillForm, view: BillsView, fails: set<BillWrite>)
    : (Tables, BillResult)
  {
    if Validate(form).Some? then (t, Rejected(Validate(form).value))
    else if form.discountid != SpecialIdChoice then OpenBill(t, form, view, FromForm(form.discountid), fails)
    else
      var did := NextId(DiscountIds(t.discount));
      var (t3, err) := CreateSpecialId(t, form, view, did, fails);
      if err.Some? then (t3, Rejected(err.value))
      else OpenBill(t3, form, view, Created(did), fails)
  }

  /** `handleGenerateBill` against the store. */
  method GenerateBill(db: Db, form: BillForm, view: BillsView, fails: set<BillWrite>) returns (r: BillResult)
    modifies db
    ensures (db.Snapshot(), r) == GenerateBillSpec(old(db.Snapshot()), form, view, fails)
  {
    var invalid := Validate(form);
    if invalid.Some? {
      return Rejected(invalid.value);
    }
    var oid := form.orderid.value;
    var arg := FromForm(form.discountid);
    if form.discountid == SpecialIdChoice {
      var newDiscountId := NextId(DiscountIds(db.discount));
      var kind := form.specialidType.value;
      db.InsertDiscount(DiscountRow(newDiscountId, SpecialId), DiscountInsert !in fails);
      if DiscountInsert in fails {
        return Rejected(DiscountInsertFailed);
      }
      db.InsertSpecialId(SpecialIdRow(newDiscountId, SelectedMember(view, oid), SPECIAL_ID_RATE, Some(kind)),
                         SpecialIdInsert !in fails);
      if SpecialIdInsert in fails {
        return Rejected(SpecialIdInsertFailed);
      }
      if kind == Senior {
        db.InsertSenior(SeniorRow(newDiscountId, form.specialidNo, form.specialidBirthday), DetailInsert !in fails);
        if DetailInsert in fails {
          return Rejected(SeniorInsertFailed);
        }
      } else {
        db.InsertPwd(PwdRow(newDiscountId, form.specialidNo, form.specialidDisability), DetailInsert !in fails);
        if DetailInsert in fails {
          return Rejected(PwdInsertFailed);
        }
      }
      arg := Created(newDiscountId);
    }
    var billid := NextId(BillIds(db.bill));
    var total := CalculateTotal(db, oid, arg, form.tax, form.servicefee, view.dishes, view.discounts);
    db.InsertBill(Bill(billid, StoredDiscountId(arg), form.tax, form.servicefee, total, Some(total)),
                  BillInsert !in fails);
    if BillInsert in fails {
      return Rejected(BillInsertFailed);
    }
    // The result of the order update is not checked.
    db.UpdateOrderBill(oid, billid, OrderLink !in fails);
    r := Generated(billid);
  }

  // ---------------------------------------------------------------------------------------
  // Deleting a bill

  function DeleteBillSpec(t: Tables, billid: int, fails: set<DeleteWrite>): Tables {
    var t1 := if BillDelete in fails then t else t.(bill := WithoutBill(t.bill, billid));
    if OrderUnlink in fails then t1 else t1.(orders := UnlinkBill(t1.orders, billid))
  }

  /** `handleDelete`: delete the bill, then clear `billid` on the orders that referenced it; the
      results of both writes are ignored. */
  method DeleteBill(db: Db, billid: int, fails: set<DeleteWrite>)
    modifies db
    ensures db.Snapshot() == DeleteBillSpec(old(db.Snapshot()), billid, fails)
  {
    db.DeleteBill(billid, BillDelete !in fails);
    db.ClearOrderBill(billid, OrderUnlink !in fails);
  }

  // ---------------------------------------------------------------------------------------
  // Properties

  lemma {:induction false} SubtotalAppend(a: seq<LineItem>, b: seq<LineItem>, dishes: seq<Dish>)
    ensures Subtotal(a + b, dishes) == Subtotal(a, dishes) + Subtotal(b, dishes)
  {
    if |b| == 0 {
      assert a + b == a;
    } else {
      var b' := b[..|b| - 1];
      assert (a + b)[..|a + b| - 1] == a + b';
      assert (a + b)[|a + b| - 1] == b[|b| - 1];
      SubtotalAppend(a, b', dishes);
    }
  }

  /** The subtotal is Σ price × quantity over exactly the items whose dish is on the menu;
      items of unknown dishes contribute nothing. */
  lemma {:induction false} SubtotalOverKnownItems(items: seq<LineItem>, dishes: seq<Dish>)
    ensures Subtotal(items, dishes) == PricedSum(KnownItems(items, dishes), dishes)
  {
    if |items| > 0 {
      var init := items[..|items| - 1];
      var last := items[|items| - 1];
      SubtotalOverKnownItems(init, dishes);
      var k := KnownItems(init, dishes);
      assert Subtotal(items, dishes) == Subtotal(init, dishes) + LineAmount(last, dishes);
      if FindDish(dishes, last.dishid).Some? {
        var k' := k + [last];
        assert KnownItems(items, dishes) == k';
        assert k'[..|k'| - 1] == k && k'[|k'| - 1] == last;
        assert LineAmount(last, dishes) == PricedLine(last, dishes);
        assert PricedSum(k', dishes) == PricedSum(k, dishes) + PricedLine(last, dishes);
      } else {
        assert KnownItems(items, dishes) == k + [];
        assert k + [] == k;
        assert LineAmount(last, dishes) == 0.0;
      }
    }
  }

  /** The discount depends only on the choice and the catalog snapshot: nothing for an empty
      choice or an id absent from the snapshot, subtotal × the rate of the first entry with an id
      in it, and subtotal × 0.12 for the literal 'specialid'. */
  lemma DiscountCases(subtotal: real, arg: PriceArg, discounts: seq<Entry>)
    ensures arg == FromForm(NoDiscount) ==> DiscountAmount(subtotal, arg, discounts) == 0.0
    ensures arg == FromForm(SpecialIdChoice) ==> DiscountAmount(subtotal, arg, discounts) == subtotal * 0.12
    ensures forall id :: (arg == FromForm(CatalogChoice(id)) || arg == Created(id)) &&
                         (forall i :: 0 <= i < |discounts| ==> discounts[i].Id() != id) ==>
              DiscountAmount(subtotal, arg, discounts) == 0.0
    ensures forall id :: (arg == FromForm(CatalogChoice(id)) || (arg == Created(id) && id != 0)) &&
                         (exists i :: 0 <= i < |discounts| && discounts[i].Id() == id) ==>
              exists i :: 0 <= i < |discounts| && discounts[i].Id() == id &&
                          (forall j :: 0 <= j < i ==> discounts[j].Id() != id) &&
                          DiscountAmount(subtotal, arg, discounts) == subtotal * discounts[i].Rate()
  {
    forall id | (arg == FromForm(CatalogChoice(id)) || (arg == Created(id) && id != 0)) &&
                (exists i :: 0 <= i < |discounts| && discounts[i].Id() == id)
      ensures exists i :: 0 <= i < |discounts| && discounts[i].Id() == id &&
                          (forall j :: 0 <= j < i ==> discounts[j].Id() != id) &&
                          DiscountAmount(subtotal, arg, discounts) == subtotal * discounts[i].Rate()
    {
      FirstEntryRate(subtotal, arg, discounts, id);
    }
  }

  /** A chosen id held by the catalog is priced at the rate of its first entry. */
  lemma FirstEntryRate(subtotal: real, arg: PriceArg, discounts: seq<Entry>, id: int)
    requires arg == FromForm(CatalogChoice(id)) || (arg == Created(id) && id != 0)
    requires exists i :: 0 <= i < |discounts| && discounts[i].Id() == id
    ensures exists i :: 0 <= i < |discounts| && discounts[i].Id() == id &&
                        (forall j :: 0 <= j < i ==> discounts[j].Id() != id) &&
                        DiscountAmount(subtotal, arg, discounts) == subtotal * discounts[i].Rate()
  {
    assert DiscountAmount(subtotal, arg, discounts) == CatalogDiscount(subtotal, id, discounts);
    CatalogFirstRate(subtotal, id, discounts);
  }

  /** The catalog price of an id held by the catalog is the rate of its first entry. */
  lemma CatalogFirstRate(subtotal: real, id: int, discounts: seq<Entry>)
    requires exists i :: 0 <= i < |discounts| && discounts[i].Id() == id
    ensures exists i :: 0 <= i < |discounts| && discounts[i].Id() == id &&
                        (forall j :: 0 <= j < i ==> discounts[j].Id() != id) &&
                        CatalogDiscount(subtotal, id, discounts) == subtotal * discounts[i].Rate()
  {
    var e := FindEntry(discounts, id);
    var k :| 0 <= k < |discounts| && discounts[k] == e.value && forall j :: 0 <= j < k ==> discounts[j].Id() != id;
    assert CatalogDiscount(subtotal, id, discounts) == subtotal * discounts[k].Rate();
  }

  /** Every validation failure returns before the store is touched. */
  lemma ValidationFailureWritesNothing(t: Tables, form: BillForm, view: BillsView, fails: set<BillWrite>)
    requires Validate(form).Some?
    ensures GenerateBillSpec(t, form, view, fails) == (t, Rejected(Validate(form).value))
    ensures form.orderid.None? ==> Validate(form) == Some(NoOrderSelected)
    ensures (form.orderid.Some? && form.discountid == SpecialIdChoice &&
             (form.specialidType.None? || form.specialidNo == "")) ==> Validate(form) == Some(SpecialIdIncomplete)
    ensures (form.orderid.Some? && form.discountid == SpecialIdChoice && form.specialidNo != "" &&
             form.specialidType == Some(Senior) && form.specialidBirthday == "") ==> Validate(form) == Some(BirthdayMissing)
    ensures (form.orderid.Some? && form.discountid == SpecialIdChoice && form.specialidNo != "" &&
             form.specialidType == Some(Pwd) && form.specialidDisability == "") ==> Validate(form) == Some(DisabilityMissing)
  {
  }

  /** What `CreateSpecialId` does to the tables. */
  lemma CreateSpecialIdEffect(t: Tables, form: BillForm, view: BillsView, did: int, fails: set<BillWrite>)
    requires form.orderid.Some? && form.specialidType.Some?
    ensures var (t', err) := CreateSpecialId(t, form, view, did, fails);
      && t'.bill == t.bill && t'.orders == t.orders && t'.orderslist == t.orderslist && t'.inhouse == t.inhouse
      && (DiscountInsert in fails ==> t' == t && err == Some(DiscountInsertFailed))
      && (DiscountInsert !in fails ==> t'.discount == t.discount + [DiscountRow(did, SpecialId)])
      && (DiscountInsert !in fails && SpecialIdInsert in fails ==>
            t' == t.(discount := t'.discount) && err == Some(SpecialIdInsertFailed))
      && (DiscountInsert !in fails && SpecialIdInsert !in fails ==>
            t'.specialid == t.specialid + [SpecialIdRow(did, SelectedMember(view, form.orderid.value), 0.12,
                                                        form.specialidType)])
      && (DiscountInsert !in fails && SpecialIdInsert !in fails && DetailInsert in fails ==>
            t'.senior == t.senior && t'.pwd == t.pwd &&
            err == Some(if form.specialidType == Some(Senior) then SeniorInsertFailed else PwdInsertFailed))
      && (DiscountInsert !in fails && SpecialIdInsert !in fails && DetailInsert !in fails ==>
            err.None? &&
            (form.specialidType == Some(Senior) ==>
               t'.senior == t.senior + [SeniorRow(did, form.specialidNo, form.specialidBirthday)] && t'.pwd == t.pwd) &&
            (form.specialidType == Some(Pwd) ==>
               t'.pwd == t.pwd + [PwdRow(did, form.specialidNo, form.specialidDisability)] && t'.senior == t.senior))
  {
  }

  /** What `OpenBill` does to the tables: a rejected bill insert changes nothing; otherwise the
      bill is appended with id max + 1 and `outstandingbalance == total`, and the order is then
      linked unless that update is rejected. */
  lemma OpenBillEffect(t: Tables, form: BillForm, view: BillsView, arg: PriceArg, fails: set<BillWrite>)
    requires form.orderid.Some? && arg != FromForm(SpecialIdChoice)
    ensures var (t', r) := OpenBill(t, form, view, arg, fails);
            var bid := NextId(BillIds(t.bill));
            var oid := form.orderid.value;
            var total := TotalFor(t.orderslist, oid, arg, form.tax, form.servicefee, view.dishes, view.discounts);
      && (BillInsert in fails ==> t' == t && r == Rejected(BillInsertFailed))
      && (BillInsert !in fails ==>
            && r == Generated(bid)
            && t'.bill == t.bill + [Bill(bid, StoredDiscountId(arg), form.tax, form.servicefee, total, Some(total))]
            && t'.orders == (if OrderLink in fails then t.orders else LinkBill(t.orders, oid, bid))
            && t' == t.(bill := t'.bill, orders := t'.orders))
  {
  }

  /** Creating a Special-ID discount writes a `discount` row, a `specialid` row with rate 0.12
      and a `senior` or `pwd` row, all under the same new id (max + 1); a rejected write stops
      the operation with the rows written before it left in place and no bill created. */
  lemma {:induction false} SpecialIdCreation(t: Tables, form: BillForm, view: BillsView, fails: set<BillWrite>)
    requires Validate(form).None? && form.discountid == SpecialIdChoice
    ensures var (t', r) := GenerateBillSpec(t, form, view, fails);
            var did := NextId(DiscountIds(t.discount));
      && did !in DiscountIds(t.discount)
      && (DiscountInsert in fails ==> t' == t && r == Rejected(DiscountInsertFailed))
      && (DiscountInsert !in fails ==> t'.discount == t.discount + [DiscountRow(did, SpecialId)])
      && (DiscountInsert !in fails && SpecialIdInsert in fails ==>
            t' == t.(discount := t'.discount) && r == Rejected(SpecialIdInsertFailed))
      && (DiscountInsert !in fails && SpecialIdInsert !in fails ==>
            t'.specialid == t.specialid + [SpecialIdRow(did, SelectedMember(view, form.orderid.value), 0.12,
                                                        form.specialidType)])
      && (DiscountInsert !in fails && SpecialIdInsert !in fails && DetailInsert in fails ==>
            t'.senior == t.senior && t'.pwd == t.pwd && t'.bill == t.bill && t'.orders == t.orders &&
            r == Rejected(if form.specialidType == Some(Senior) then SeniorInsertFailed else PwdInsertFailed))
      && (DiscountInsert !in fails && SpecialIdInsert !in fails && DetailInsert !in fails ==>
            (form.specialidType == Some(Senior) ==>
               t'.senior == t.senior + [SeniorRow(did, form.specialidNo, form.specialidBirthday)] && t'.pwd == t.pwd) &&
            (form.specialidType == Some(Pwd) ==>
               t'.pwd == t.pwd + [PwdRow(did, form.specialidNo, form.specialidDisability)] && t'.senior == t.senior) &&
            (BillInsert !in fails ==> r == Generated(NextId(BillIds(t.bill)))))
  {
    var did := NextId(DiscountIds(t.discount));
    CreateSpecialIdEffect(t, form, view, did, fails);
    var (t3, err) := CreateSpecialId(t, form, view, did, fails);
    if err.None? {
      OpenBillEffect(t3, form, view, Created(did), fails);
    }
  }

  /** The stale-catalog behaviour: a bill generated with a freshly created Special-ID discount
      is priced against the catalog loaded before that discount existed. When every catalog
      entry is backed by a `discount` row, the new id (max + 1) is in no entry, the look-up
      finds nothing, and the bill gets no discount at all (not 12 %). */
  lemma {:induction false} FreshSpecialIdGetsNoDiscount(t: Tables, form: BillForm, view: BillsView, fails: set<BillWrite>)
    requires Validate(form).None? && form.discountid == SpecialIdChoice
    requires DiscountInsert !in fails && SpecialIdInsert !in fails && DetailInsert !in fails && BillInsert !in fails
    requires forall i :: 0 <= i < |view.discounts| ==> view.discounts[i].Id() in DiscountIds(t.discount)
    ensures var t' := GenerateBillSpec(t, form, view, fails).0;
            var s := Subtotal(ItemsOf(t.orderslist, form.orderid.value), view.dishes);
      && |t'.bill| == |t.bill| + 1
      && t'.bill[|t.bill|].total == BillTotal(s, 0.0, form.tax, form.servicefee)
  {
    var did := NextId(DiscountIds(t.discount));
    CreateSpecialIdEffect(t, form, view, did, fails);
    var (t3, err) := CreateSpecialId(t, form, view, did, fails);
    assert GenerateBillSpec(t, form, view, fails) == OpenBill(t3, form, view, Created(did), fails);
    assert forall i :: 0 <= i < |view.discounts| ==> view.discounts[i].Id() != did;
    UnknownDiscountBill(t3, form, view, did, fails);
  }

  /** Opening a bill for a discount id the catalog does not hold prices it without discount. */
  lemma UnknownDiscountBill(t: Tables, form: BillForm, view: BillsView, did: int, fails: set<BillWrite>)
    requires form.orderid.Some? && BillInsert !in fails
    requires forall i :: 0 <= i < |view.discounts| ==> view.discounts[i].Id() != did
    ensures var t' := OpenBill(t, form, view, Created(did), fails).0;
            var s := Subtotal(ItemsOf(t.orderslist, form.orderid.value), view.dishes);
      && |t'.bill| == |t.bill| + 1
      && t'.bill[|t.bill|].total == BillTotal(s, 0.0, form.tax, form.servicefee)
  {
    OpenBillEffect(t, form, view, Created(did), fails);
    UnknownDiscountTotal(t.orderslist, form.orderid.value, did, form.tax, form.servicefee, view.dishes, view.discounts);
  }

  /** The price of an order under a created discount id missing from the catalog. */
  lemma UnknownDiscountTotal(orderslist: seq<LineItem>, orderid: int, did: int, tax: real, servicefee: real,
                             dishes: seq<Dish>, discounts: seq<Entry>)
    requires forall i :: 0 <= i < |discounts| ==> discounts[i].Id() != did
    ensures var s := Subtotal(ItemsOf(orderslist, orderid), dishes);
      && TotalFor(orderslist, orderid, Created(did), tax, servicefee, dishes, discounts) == BillTotal(s, 0.0, tax, servicefee)
      && BillTotal(s, 0.0, tax, servicefee) == s * (1.0 + tax + servicefee)
  {
    assert FindEntry(discounts, did).None?;
    var s := Subtotal(ItemsOf(orderslist, orderid), dishes);
    assert DiscountAmount(s, Created(did), discounts) == 0.0;
    UndiscountedTotal(s, tax, servicefee);
  }

  lemma UndiscountedTotal(s: real, tax: real, servicefee: real)
    ensures BillTotal(s, 0.0, tax, servicefee) == s * (1.0 + tax + servicefee)
  {
    BillTotalFactored(s, 0.0, tax, servicefee);
    assert s - 0.0 == s;
  }

  /** A bill opened without a Special-ID discount gets id max + 1 (or 1), `outstandingbalance ==
      total`, the form's tax and fee, and a null `discountid` when no discount was chosen; the
      order is linked to it only after its insert succeeded; no table but `bill` and `orders`
      changes. */
  lemma {:induction false} NewBillOpened(t: Tables, form: BillForm, view: BillsView, fails: set<BillWrite>)
    requires Validate(form).None? && form.discountid != SpecialIdChoice && BillInsert !in fails
    ensures var (t', r) := GenerateBillSpec(t, form, view, fails);
            var bid := NextId(BillIds(t.bill));
            var oid := form.orderid.value;
      && r == Generated(bid)
      && (|t.bill| == 0 ==> bid == 1)
      && |t'.bill| == |t.bill| + 1 && t'.bill[..|t.bill|] == t.bill
      && t'.bill[|t.bill|].billid == bid
      && t'.bill[|t.bill|].outstandingbalance == Some(t'.bill[|t.bill|].total)
      && t'.bill[|t.bill|].total ==
           TotalFor(t.orderslist, oid, FromForm(form.discountid), form.tax, form.servicefee, view.dishes, view.discounts)
      && t'.bill[|t.bill|].tax == form.tax && t'.bill[|t.bill|].servicefee == form.servicefee
      && (form.discountid == NoDiscount ==> t'.bill[|t.bill|].discountid == None)
      && (forall id :: form.discountid == CatalogChoice(id) ==> t'.bill[|t.bill|].discountid == Some(id))
      && t'.orders == (if OrderLink in fails then t.orders else LinkBill(t.orders, oid, bid))
      && t' == t.(bill := t'.bill, orders := t'.orders)
  {
    OpenBillEffect(t, form, view, FromForm(form.discountid), fails);
    var t' := GenerateBillSpec(t, form, view, fails).0;
    assert t'.bill[..|t.bill|] == t.bill;
  }

  /** An order's `billid` only ever changes to a bill that was just inserted: a rejected
      operation leaves `bill` and `orders` as they were. */
  lemma {:induction false} OrdersLinkedOnlyToInsertedBills(t: Tables, form: BillForm, view: BillsView, fails: set<BillWrite>)
    ensures var (t', r) := GenerateBillSpec(t, form, view, fails);
      && (r.Rejected? ==> t'.bill == t.bill && t'.orders == t.orders)
      && (t'.orders != t.orders ==>
            r.Generated? && exists i :: 0 <= i < |t'.bill| && t'.bill[i].billid == r.billid)
  {
    if Validate(form).None? {
      var t3 := t;
      var arg := FromForm(form.discountid);
      if form.discountid == SpecialIdChoice {
        var did := NextId(DiscountIds(t.discount));
        CreateSpecialIdEffect(t, form, view, did, fails);
        var (t3', err) := CreateSpecialId(t, form, view, did, fails);
        t3, arg := t3', Created(did);
        if err.Some? { return; }
      }
      assert GenerateBillSpec(t, form, view, fails) == OpenBill(t3, form, view, arg, fails);
      OpenBillEffect(t3, form, view, arg, fails);
      var (t', r) := OpenBill(t3, form, view, arg, fails);
      if r.Generated? {
        assert t'.bill[|t'.bill| - 1].billid == r.billid;
      }
    }
  }

  /** Deleting a bill removes every bill row with that id and sets `billid` to null on every
      order that referenced it, keeping that order's other fields and every other order; a
      rejected write leaves its table as it was, and the other tables are untouched. */
  lemma DeleteBillEffect(t: Tables, billid: int, fails: set<DeleteWrite>)
    ensures var t' := DeleteBillSpec(t, billid, fails);
      && t'.discount == t.discount && t'.inhouse == t.inhouse && t'.specialid == t.specialid
      && t'.senior == t.senior && t'.pwd == t.pwd && t'.orderslist == t.orderslist
      && (BillDelete !in fails ==>
            (forall b :: b in t'.bill <==> b in t.bill && b.billid != billid))
      && (BillDelete in fails ==> t'.bill == t.bill)
      && (OrderUnlink !in fails ==>
            |t'.orders| == |t.orders| &&
            forall i :: 0 <= i < |t.orders| ==>
              t'.orders[i] == if t.orders[i].billid == Some(billid) then t.orders[i].(billid := None)
                              else t.orders[i])
      && (OrderUnlink in fails ==> t'.orders == t.orders)
  {
  }
}
