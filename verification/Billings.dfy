/** Commission rows and the cash ledger behind them (worker_billing_service, payments.providers). */
module Billings {
  import opened Prelude
  import opened Tables
  import opened Invariant

  datatype PaymentResult = Recorded(db: Db, payment: nat) | Refused

  /** CashProvider.record_payment: cash is received on the spot. */
  function RecordPayment(db: Db, payer: nat, amount: int, job: Option<nat>, billing: Option<nat>,
                         recordedBy: nat): PaymentResult {
    if amount <= 0 then Refused
    else if job.Some? && billing.Some? then Refused
    else Recorded(db.(payments := db.payments + [Payment(payer, amount, Cash, job, billing, recordedBy, Settled)]),
        |db.payments|)
  }

  function MarkPaid(db: Db, billing: nat, admin: nat): Outcome {
    if billing >= |db.billings| then Fail(NotFound)
    else if db.billings[billing].status.Paid? then Fail(BadRequest)
    else
      var row := db.billings[billing];
      if row.worker >= |db.workers| then Fail(NotFound)
      else
        match RecordPayment(db, db.workers[row.worker].user, row.owed - row.paid, None, Some(billing), admin)
        case Refused => Fail(BadRequest)
        case Recorded(mid, p) =>
          Ok(mid.(billings := mid.billings[billing := row.(paid := row.owed, status := Paid, payment := Some(p))]))
  }

  /** CashProvider.refund flips the ledger row and leaves the billing row as it is. */
  function Refund(db: Db, payment: nat): Outcome {
    if payment >= |db.payments| then Fail(NotFound)
    else if !db.payments[payment].means.Cash? then Fail(BadRequest)
    else Ok(db.(payments := db.payments[payment := db.payments[payment].(status := Refunded)]))
  }

  // ─── Preservation ───────────────────────────────────────────────────────────

  lemma MarkPaidKeeps(db: Db, billing: nat, admin: nat)
    requires Inv(db) && MarkPaid(db, billing, admin).Ok?
    ensures var db' := MarkPaid(db, billing, admin).db; Inv(db') && Evolves(db, db')
  {
    var db' := MarkPaid(db, billing, admin).db;
    MarkPaidEvolves(db, billing, admin);
    MarkPaidRows(db, billing, admin);
    CarryReviews(db, db');
    MarkPaidBalance(db, billing, admin);
  }

  lemma MarkPaidEvolves(db: Db, billing: nat, admin: nat)
    requires MarkPaid(db, billing, admin).Ok?
    ensures Evolves(db, MarkPaid(db, billing, admin).db)
  {
  }

  lemma MarkPaidRows(db: Db, billing: nat, admin: nat)
    requires Keys(db) && Unique(db) && BillingRows(db) && MarkPaid(db, billing, admin).Ok?
    ensures var db' := MarkPaid(db, billing, admin).db; Keys(db') && Unique(db') && BillingRows(db')
  {
  }

  lemma MarkPaidBalance(db: Db, billing: nat, admin: nat)
    requires BillingBalance(db) && MarkPaid(db, billing, admin).Ok?
    ensures BillingBalance(MarkPaid(db, billing, admin).db)
  {
    var db' := MarkPaid(db, billing, admin).db;
    assert Balanced(db, billing);
    forall b: nat | b < |db'.billings| ensures Balanced(db', b) {
      assert Balanced(db, b);
    }
  }

  lemma RefundKeeps(db: Db, payment: nat)
    requires Inv(db) && Refund(db, payment).Ok?
    ensures var db' := Refund(db, payment).db; Inv(db') && Evolves(db, db')
  {
    var db' := Refund(db, payment).db;
    RefundEvolves(db, payment);
    KeysAfterUpdate(db, db');
    CarryReviews(db, db');
    CarryBilling(db, db');
    RefundBalance(db, payment);
  }

  lemma RefundEvolves(db: Db, payment: nat)
    requires Refund(db, payment).Ok?
    ensures Evolves(db, Refund(db, payment).db)
  {
  }

  lemma RefundBalance(db: Db, payment: nat)
    requires BillingBalance(db) && Refund(db, payment).Ok?
    ensures BillingBalance(Refund(db, payment).db)
  {
    var db' := Refund(db, payment).db;
    forall b: nat | b < |db'.billings| ensures Balanced(db', b) {
      assert Balanced(db, b);
    }
  }

  // ─── The ledger and the rows agree ──────────────────────────────────────────

  function Against(payments: seq<Payment>, billing: nat): nat -> int {
    (p: nat) => if p < |payments| && payments[p].billing == Some(billing) then payments[p].amount else 0
  }

  function RecordedAgainst(payments: seq<Payment>, billing: nat): int {
    SumTo(|payments|, Against(payments, billing))
  }

  function StillHeld(payments: seq<Payment>, billing: nat): nat -> int {
    (p: nat) => if p < |payments| && payments[p].billing == Some(billing) && payments[p].status.Settled?
        then payments[p].amount else 0
  }

  function HeldAgainst(payments: seq<Payment>, billing: nat): int {
    SumTo(|payments|, StillHeld(payments, billing))
  }

  /** The payments recorded against a row sum to its amount_paid, which is nothing or all of what is owed. */
  lemma PaymentsAddUp(db: Db, b: nat)
    requires BillingBalance(db) && b < |db.billings|
    ensures RecordedAgainst(db.payments, b) == db.billings[b].paid
    ensures db.billings[b].paid == 0 || db.billings[b].paid == db.billings[b].owed
    ensures db.billings[b].status.Paid? <==> db.billings[b].payment.Some?
  {
    assert Balanced(db, b);
    if db.billings[b].status.Paid? {
      SumSingle(|db.payments|, Against(db.payments, b), db.billings[b].payment.value);
    } else {
      SumConstant(|db.payments|, Against(db.payments, b), 0);
    }
  }

  /** The cash still held for a row equals its amount_paid exactly when its payment has not been refunded:
      refunding never reopens the billing row. */
  lemma HeldExactlyWhenNotRefunded(db: Db, b: nat)
    requires BillingBalance(db) && b < |db.billings|
    ensures db.billings[b].payment.Some? ==> db.billings[b].payment.value < |db.payments|
    ensures HeldAgainst(db.payments, b) == db.billings[b].paid
            <==> (db.billings[b].payment.Some? ==> db.payments[db.billings[b].payment.value].status.Settled?)
  {
    assert Balanced(db, b);
    if db.billings[b].status.Paid? {
      SumSingle(|db.payments|, StillHeld(db.payments, b), db.billings[b].payment.value);
    } else {
      SumConstant(|db.payments|, StillHeld(db.payments, b), 0);
    }
  }

  /** A row is marked paid at most once, and only for a positive amount. */
  lemma MarkPaidExactlyWhen(db: Db, b: nat, admin: nat)
    requires Inv(db) && b < |db.billings|
    ensures MarkPaid(db, b, admin).Ok? <==> db.billings[b].status.Due? && db.billings[b].owed > 0
    ensures MarkPaid(db, b, admin).Ok? ==> !MarkPaid(MarkPaid(db, b, admin).db, b, admin).Ok?
  {
    assert Balanced(db, b);
  }
}
