/** The Payments page: recording a payment against a bill. The form is validated, the bill's
    balance is amortised by the paid amount (clamped at 0), and then a payment row, the bill's
    new balance and a 'payment' history entry are written in that order. */
module Payments {
  import opened Common
  import opened Ids
  import opened Store

  /** The form, already parsed: an empty select or input is `None` / `""`. */
  datatype PaymentForm = PaymentForm(memberid: string, billid: Option<int>, paymentoption: string,
                                     paymentdate: string, paidamount: Option<real>)

  datatype PaymentError = MissingField | PaymentInsertFailed

  datatype PaymentResult = Recorded(paymentid: int) | Rejected(error: PaymentError)

  /** The store writes of `handleSubmit`; only the payment insert's error is checked. */
  datatype PaymentWrite = PaymentInsert | BillUpdate | HistoryInsert

  /** What the payment does to its bill: the balance snapshot stored with the payment (null when
      the bill was not found) and the payment status. */
  datatype Settlement = Settlement(snapshot: Option<real>, status: string)

  // ---------------------------------------------------------------------------------------
  // Amortisation

  /** Every required field is filled in; a paid amount of 0 counts as filled in. */
  predicate Complete(form: PaymentForm) {
    form.memberid != "" && form.billid.Some? && form.paymentoption != "" && form.paymentdate != "" &&
    form.paidamount.Some?
  }

  /** The balance a payment starts from: `outstandingbalance`, or `total` while that is null. */
  function StartingBalance(b: Bill): (r: real)
    ensures b.outstandingbalance.Some? ==> r == b.outstandingbalance.value
    ensures b.outstandingbalance.None? ==> r == b.total
  {
    if b.outstandingbalance.Some? then b.outstandingbalance.value else b.total
  }

  /** `balance − paid`, raised to 0 when negative: `max(0, balance − paid)`. */
  function Clamp(balance: real, paid: real): (r: real)
    ensures r >= 0.0 && r >= balance - paid
    ensures r == 0.0 || r == balance - paid
    ensures paid >= 0.0 && balance >= 0.0 ==> r <= balance
  {
    var n := balance - paid;
    if n < 0.0 then 0.0 else n
  }

  /** 'paid' exactly when nothing is outstanding, 'partial' otherwise. */
  function StatusFor(balance: real): (r: string)
    ensures r == PAID <==> balance == 0.0
    ensures r == PAID || r == PARTIAL
  {
    if balance == 0.0 then PAID else PARTIAL
  }

  /** The outcome of lines computing `newOutstanding` and `paymentstatus`. */
  function Settle(bill: Option<Bill>, paid: real): (r: Settlement)
    ensures r.snapshot.Some? <==> bill.Some?
    ensures bill.None? ==> r.status == PARTIAL
    ensures bill.Some? ==> r.snapshot.value >= 0.0 && r.snapshot.value >= StartingBalance(bill.value) - paid
    ensures bill.Some? ==> r.snapshot == Some(Clamp(StartingBalance(bill.value), paid)) &&
                           r.status == StatusFor(r.snapshot.value)
    ensures r.status == PAID <==> r.snapshot == Some(0.0)
    ensures r.status == PAID || r.status == PARTIAL
  {
    if bill.None? then Settlement(None, PARTIAL)
    else
      var n := Clamp(StartingBalance(bill.value), paid);
      Settlement(Some(n), StatusFor(n))
  }

  // ---------------------------------------------------------------------------------------
  // Submitting a payment

  /** The whole of `handleSubmit`: the new tables and the outcome. `now` is the clock reading
      stored as the history entry's `eventdate`. */
  function SubmitSpec(t: Tables, form: PaymentForm, now: Timestamp, fails: set<PaymentWrite>)
    : (Tables, PaymentResult)
  {
    if !Complete(form) then (t, Rejected(MissingField))
    else
      var pid := NextId(PaymentIds(t.payment));
      var bid := form.billid.value;
      var bill := FindBill(t.bill, bid);
      var s := Settle(bill, form.paidamount.value);
      if PaymentInsert in fails then (t, Rejected(PaymentInsertFailed))
      else
        var t1 := t.(payment := t.payment + [Payment(pid, form.memberid, bid, form.paymentoption,
                                                     form.paymentdate, form.paidamount.value, s.status,
                                                     s.snapshot)]);
        var t2 := if bill.Some? && BillUpdate !in fails then t1.(bill := SetBalance(t1.bill, bid, s.snapshot))
                  else t1;
        var hid := NextId(HistoryIds(t2.memberhistory));
        var t3 := if HistoryInsert in fails then t2
                  else t2.(memberhistory := t2.memberhistory +
                                            [HistoryEntry(hid, form.memberid, None, Some(pid), now, PAYMENT_EVENT)]);
        (t3, Recorded(pid))
  }

  /** `handleSubmit` against the store. */
  method SubmitPayment(db: Db, form: PaymentForm, now: Timestamp, fails: set<PaymentWrite>)
    returns (r: PaymentResult)
    modifies db
    ensures (db.Snapshot(), r) == SubmitSpec(old(db.Snapshot()), form, now, fails)
  {
    if form.memberid == "" || form.billid.None? || form.paymentoption == "" || form.paymentdate == "" ||
       form.paidamount.None? {
      return Rejected(MissingField);
    }
    var paymentid := NextId(PaymentIds(db.payment));
    var bid := form.billid.value;
    var paid := form.paidamount.value;
    var billData := FindBill(db.bill, bid);
    var newOutstanding: Option<real> := None;
    var paymentstatus := PARTIAL;
    if billData.Some? {
      var outstandingbalance := StartingBalance(billData.value);
      var n := outstandingbalance - paid;
      if n < 0.0 {
        n := 0.0;
      }
      newOutstanding := Some(n);
      paymentstatus := if n == 0.0 then PAID else PARTIAL;
    }
    db.InsertPayment(Payment(paymentid, form.memberid, bid, form.paymentoption, form.paymentdate, paid,
                             paymentstatus, newOutstanding), PaymentInsert !in fails);
    if PaymentInsert in fails {
      return Rejected(PaymentInsertFailed);
    }
    // The results of the bill update and of the history insert are not checked.
    if billData.Some? {
      db.UpdateBalance(bid, newOutstanding, BillUpdate !in fails);
    }
    var historyid := NextId(HistoryIds(db.memberhistory));
    db.InsertHistory(HistoryEntry(historyid, form.memberid, None, Some(paymentid), now, PAYMENT_EVENT),
                     HistoryInsert !in fails);
    r := Recorded(paymentid);
  }

  // ---------------------------------------------------------------------------------------
  // The bill picker

  /** The bills offered for payment: those with a non-null, positive outstanding balance. */
  function AwaitingPayment(bills: seq<Bill>): (r: seq<Bill>)
    ensures forall b :: b in r <==> b in bills && b.outstandingbalance.Some? && b.outstandingbalance.value > 0.0
    ensures |r| <= |bills|
  {
    if |bills| == 0 then []
    else
      var b := bills[0];
      assert forall x :: x in bills <==> x == b || x in bills[1..];
      (if b.outstandingbalance.Some? && b.outstandingbalance.value > 0.0 then [b] else []) + AwaitingPayment(bills[1..])
  }

  // ---------------------------------------------------------------------------------------
  // Properties

  /** An incomplete form is rejected before any store access. */
  lemma IncompleteFormWritesNothing(t: Tables, form: PaymentForm, now: Timestamp, fails: set<PaymentWrite>)
    requires form.memberid == "" || form.billid.None? || form.paymentoption == "" || form.paymentdate == "" ||
             form.paidamount.None?
    ensures SubmitSpec(t, form, now, fails) == (t, Rejected(MissingField))
  {
  }

  /** A rejected payment insert stops the operation with nothing written. */
  lemma RejectedPaymentWritesNothing(t: Tables, form: PaymentForm, now: Timestamp, fails: set<PaymentWrite>)
    requires Complete(form) && PaymentInsert in fails
    ensures SubmitSpec(t, form, now, fails) == (t, Rejected(PaymentInsertFailed))
  {
  }

  /** A recorded payment: id max + 1 (or 1), the form's member, bill, option, date and amount and
      the resulting-balance snapshot in its row, status 'paid' exactly when that snapshot is 0 and
      'partial' otherwise; a 'payment' history entry with id max + 1, null order and the new
      payment id; and nothing else in the store touched. */
  lemma {:induction false} PaymentRecorded(t: Tables, form: PaymentForm, now: Timestamp, fails: set<PaymentWrite>)
    requires Complete(form) && PaymentInsert !in fails
    ensures var (t', r) := SubmitSpec(t, form, now, fails);
            var pid := NextId(PaymentIds(t.payment));
            var hid := NextId(HistoryIds(t.memberhistory));
            var bill := FindBill(t.bill, form.billid.value);
      && r == Recorded(pid) && pid !in PaymentIds(t.payment) && (|t.payment| == 0 ==> pid == 1)
      && |t'.payment| == |t.payment| + 1 && t'.payment[..|t.payment|] == t.payment
      && t'.payment[|t.payment|] ==
           Payment(pid, form.memberid, form.billid.value, form.paymentoption, form.paymentdate,
                   form.paidamount.value, Settle(bill, form.paidamount.value).status,
                   Settle(bill, form.paidamount.value).snapshot)
      && (bill.Some? ==>
            t'.payment[|t.payment|].outstandingbalance ==
              Some(Clamp(StartingBalance(bill.value), form.paidamount.value)) &&
            t'.payment[|t.payment|].paymentstatus ==
              StatusFor(Clamp(StartingBalance(bill.value), form.paidamount.value)))
      && (bill.None? ==> t'.payment[|t.payment|].outstandingbalance == None &&
                         t'.payment[|t.payment|].paymentstatus == PARTIAL && t'.bill == t.bill)
      && (t'.payment[|t.payment|].paymentstatus == PAID <==> t'.payment[|t.payment|].outstandingbalance == Some(0.0))
      && hid !in HistoryIds(t.memberhistory)
      && (HistoryInsert !in fails ==>
            t'.memberhistory == t.memberhistory + [HistoryEntry(hid, form.memberid, None, Some(pid), now, PAYMENT_EVENT)])
      && (HistoryInsert in fails ==> t'.memberhistory == t.memberhistory)
      && t' == t.(payment := t'.payment, bill := t'.bill, memberhistory := t'.memberhistory)
  {
    var t' := SubmitSpec(t, form, now, fails).0;
    assert t'.payment[..|t.payment|] == t.payment;
  }

  /** After a recorded payment whose bill update is accepted, the bill carries the same balance
      as the payment's snapshot; its total is unchanged. */
  lemma {:induction false} BillTakesSnapshot(t: Tables, form: PaymentForm, now: Timestamp, fails: set<PaymentWrite>)
    requires Complete(form) && PaymentInsert !in fails && BillUpdate !in fails
    requires FindBill(t.bill, form.billid.value).Some?
    ensures var t' := SubmitSpec(t, form, now, fails).0;
            var b := FindBill(t.bill, form.billid.value).value;
      && FindBill(t'.bill, form.billid.value) ==
           Some(b.(outstandingbalance := Some(Clamp(StartingBalance(b), form.paidamount.value))))
      && t'.payment[|t'.payment| - 1].outstandingbalance == FindBill(t'.bill, form.billid.value).value.outstandingbalance
  {
    var b := FindBill(t.bill, form.billid.value).value;
    FindAfterSetBalance(t.bill, form.billid.value, Some(Clamp(StartingBalance(b), form.paidamount.value)));
  }

  /** Setting a bill's balance is seen by the next look-up of that bill. */
  lemma {:induction false} FindAfterSetBalance(bills: seq<Bill>, bid: int, balance: Option<real>)
    requires FindBill(bills, bid).Some?
    ensures FindBill(SetBalance(bills, bid, balance), bid) ==
              Some(FindBill(bills, bid).value.(outstandingbalance := balance))
  {
    var after := SetBalance(bills, bid, balance);
    if bills[0].billid != bid {
      assert after[1..] == SetBalance(bills[1..], bid, balance);
      FindAfterSetBalance(bills[1..], bid, balance);
    }
  }

  /** Once a bill's balance is set to 0 it is no longer offered for payment. */
  lemma SettledBillLeavesPicker(bills: seq<Bill>, bid: int)
    ensures forall b :: b in AwaitingPayment(SetBalance(bills, bid, Some(0.0))) ==> b.billid != bid
  {
  }

  /** Σ of the payments. */
  function Sum(ps: seq<real>): real {
    if |ps| == 0 then 0.0 else Sum(ps[..|ps| - 1]) + ps[|ps| - 1]
  }

  /** The balance after paying `ps` in turn, from a starting balance. */
  function Amortise(balance: real, ps: seq<real>): real {
    if |ps| == 0 then balance else Clamp(Amortise(balance, ps[..|ps| - 1]), ps[|ps| - 1])
  }

  /** Paying non-negative amounts p1..pn (n ≥ 1) against a fresh bill leaves
      max(0, total − Σp), and the last payment is 'paid' exactly when Σp ≥ total. */
  lemma {:induction false} AmortisationCloses(total: real, ps: seq<real>)
    requires |ps| > 0
    requires forall i :: 0 <= i < |ps| ==> ps[i] >= 0.0
    ensures Amortise(total, ps) == if total - Sum(ps) < 0.0 then 0.0 else total - Sum(ps)
    ensures StatusFor(Amortise(total, ps)) == PAID <==> Sum(ps) >= total
  {
    var init := ps[..|ps| - 1];
    if |init| > 0 {
      AmortisationCloses(total, init);
    }
  }

  /** The same over the store: a series of complete payments of non-negative amounts against a
      bill fresh from generation (balance == total), every write accepted, leaves that bill at
      max(0, total − Σp). */
  function PayAll(t: Tables, memberid: string, bid: int, option: string, date: string, ps: seq<real>,
                  now: Timestamp): Tables
  {
    if |ps| == 0 then t
    else
      var t0 := PayAll(t, memberid, bid, option, date, ps[..|ps| - 1], now);
      SubmitSpec(t0, PaymentForm(memberid, Some(bid), option, date, Some(ps[|ps| - 1])), now, {}).0
  }

  lemma {:induction false} PayAllAmortises(t: Tables, memberid: string, bid: int, option: string, date: string,
                        ps: seq<real>, now: Timestamp)
    requires memberid != "" && option != "" && date != ""
    requires FindBill(t.bill, bid).Some?
    requires StartingBalance(FindBill(t.bill, bid).value) == FindBill(t.bill, bid).value.total
    requires forall i :: 0 <= i < |ps| ==> ps[i] >= 0.0
    ensures var b := FindBill(t.bill, bid).value;
            var b' := FindBill(PayAll(t, memberid, bid, option, date, ps, now).bill, bid);
      && b'.Some? && b'.value.total == b.total
      && (|ps| > 0 ==> b'.value.outstandingbalance == Some(Amortise(b.total, ps)))
      && (|ps| > 0 ==> b'.value.outstandingbalance ==
                         Some(if b.total - Sum(ps) < 0.0 then 0.0 else b.total - Sum(ps)))
  {
    PayAllBalance(t, memberid, bid, option, date, ps, now);
    ClosedBalance(FindBill(t.bill, bid).value, FindBill(PayAll(t, memberid, bid, option, date, ps, now).bill, bid), ps);
  }

  /** The balance a bill is left at by payments amortised from its total, in closed form. */
  lemma ClosedBalance(b: Bill, after: Option<Bill>, ps: seq<real>)
    requires StartingBalance(b) == b.total
    requires forall i :: 0 <= i < |ps| ==> ps[i] >= 0.0
    requires after.Some? && after.value.total == b.total
    requires |ps| > 0 ==> after.value.outstandingbalance == Some(Amortise(StartingBalance(b), ps))
    ensures |ps| > 0 ==> after.value.outstandingbalance == Some(Amortise(b.total, ps))
    ensures |ps| > 0 ==> after.value.outstandingbalance ==
                           Some(if b.total - Sum(ps) < 0.0 then 0.0 else b.total - Sum(ps))
  {
    if |ps| > 0 {
      AmortisationCloses(b.total, ps);
    }
  }

  /** The balance after `PayAll` is the starting balance amortised by the payments. */
  lemma {:induction false} PayAllBalance(t: Tables, memberid: string, bid: int, option: string, date: string,
                                         ps: seq<real>, now: Timestamp)
    requires memberid != "" && option != "" && date != ""
    requires FindBill(t.bill, bid).Some?
    ensures var b := FindBill(t.bill, bid).value;
            var b' := FindBill(PayAll(t, memberid, bid, option, date, ps, now).bill, bid);
      && b'.Some? && b'.value.total == b.total
      && StartingBalance(b'.value) == Amortise(StartingBalance(b), ps)
      && (|ps| > 0 ==> b'.value.outstandingbalance == Some(Amortise(StartingBalance(b), ps)))
  {
    if |ps| > 0 {
      var init := ps[..|ps| - 1];
      var t0 := PayAll(t, memberid, bid, option, date, init, now);
      PayAllBalance(t, memberid, bid, option, date, init, now);
      PayStep(t0, memberid, bid, option, date, ps[|ps| - 1], now);
    }
  }

  /** One complete payment with every write accepted moves the bill's balance by `Clamp`. */
  lemma PayStep(t: Tables, memberid: string, bid: int, option: string, date: string, p: real, now: Timestamp)
    requires memberid != "" && option != "" && date != ""
    requires FindBill(t.bill, bid).Some?
    ensures var b := FindBill(t.bill, bid).value;
            var b' := FindBill(SubmitSpec(t, PaymentForm(memberid, Some(bid), option, date, Some(p)), now, {}).0.bill, bid);
      && b'.Some? && b'.value.total == b.total
      && b'.value.outstandingbalance == Some(Clamp(StartingBalance(b), p))
  {
    BillTakesSnapshot(t, PaymentForm(memberid, Some(bid), option, date, Some(p)), now, {});
  }
}
