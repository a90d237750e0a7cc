/** What the route transitions mean: the debt ledger's three cases and its invariant, the debt
    status, what deleting a settlement does to the ledger after each case, the advance
    bookkeeping round trip, the items of a new settlement, and the received-marking guard. */
module RoutesProperties {
  import opened Money
  import opened Calendar
  import opened Tables
  import opened Settlement
  import opened Models
  import opened Routes

  // ---- Debt ledger ----

  /** The three cases of the ledger update, stated against the ledger before it. */
  lemma PayDebtCases(d: DebtState, payment: real)
    ensures var p := PayDebt(d, payment);
      (d.remaining > 0.0 && payment >= d.remaining ==>
        p.after == DebtState(d.total, 0.0) && p.actualPayment == d.remaining) &&
      (d.remaining > 0.0 && payment < d.remaining ==>
        p.after == DebtState(d.total, d.remaining - payment) && p.actualPayment == payment) &&
      (d.remaining <= 0.0 ==>
        p.after == DebtState(d.total + payment, d.remaining + payment) && p.actualPayment == 0.0)
  {
  }

  /** A non-negative deduction keeps 0 <= remaining <= total; what it pays off is never more than
      the deduction nor more than what was owed; and the amount repaid so far (total less
      remaining) grows by exactly the amount paid off. */
  lemma PayDebtKeepsInvariant(d: DebtState, payment: real)
    requires DebtInvariant(d) && payment >= 0.0
    ensures var p := PayDebt(d, payment);
      DebtInvariant(p.after) &&
      0.0 <= p.actualPayment <= payment && p.actualPayment <= d.remaining &&
      p.after.total - p.after.remaining == d.total - d.remaining + p.actualPayment &&
      p.after.total >= d.total
  {
  }

  /** A settlement with a non-negative income keeps the ledger invariant. */
  lemma SettlementKeepsDebtInvariant(cfg: Config, d: DebtState, totalIncome: real)
    requires DebtInvariant(d) && totalIncome >= 0.0 && cfg.debtPercent >= 0.0
    ensures DebtInvariant(PayDebt(d, DebtDue(cfg, totalIncome)).after)
  {
    DebtDueNonNegative(cfg, totalIncome);
    PayDebtKeepsInvariant(d, DebtDue(cfg, totalIncome));
  }

  /** Nothing checks the income before the calculator runs, so an income of -1000 gives a
      deduction of -100, which the ledger "pays" by raising the remaining debt above the total. */
  lemma NegativeIncomeBreaksInvariant()
    ensures DebtDue(DefaultConfig, -1000.0) == -100.0
    ensures var d := DebtState(100.0, 50.0);
            var p := PayDebt(d, -100.0);
      DebtInvariant(d) && p.after == DebtState(100.0, 150.0) && !DebtInvariant(p.after) &&
      StatusOf(p.after, p.actualPayment, -100.0) == NewDebtAdded(-100.0)
  {
    QuantOfCents(-1000.0);
    QuantOfCents(-100.0);
  }

  /** Which status a settlement reports, in terms of the ledger before it and its deduction. A
      zero deduction against outstanding debt pays nothing and is reported as 0 of new debt. */
  lemma {:induction false} StatusClassification(d: DebtState, payment: real)
    requires DebtInvariant(d) && payment >= 0.0
    ensures var p := PayDebt(d, payment);
            var s := StatusOf(p.after, p.actualPayment, payment);
      (s == FullyPaidOff <==>
        (d.remaining > 0.0 && payment >= d.remaining) || (d.remaining == 0.0 && payment == 0.0 && d.total > 0.0)) &&
      (s.DebtPayment? <==> 0.0 < payment < d.remaining) &&
      (s.DebtPayment? ==> s.amount == payment) &&
      (s.NewDebtAdded? <==> (d.remaining == 0.0 && (payment > 0.0 || d.total == 0.0)) || (d.remaining > 0.0 && payment == 0.0)) &&
      (s.NewDebtAdded? ==> s.amount == payment)
  {
    var p := PayDebt(d, payment);
    if d.remaining > 0.0 && payment >= d.remaining {
      assert p.after == DebtState(d.total, 0.0) && d.total > 0.0;
    } else if d.remaining > 0.0 {
      assert p.after == DebtState(d.total, d.remaining - payment) && p.actualPayment == payment;
      assert p.after.remaining > 0.0;
    } else {
      assert p.after == DebtState(d.total + payment, payment) && p.actualPayment == 0.0;
    }
  }

  /** Reversing a positive deduction leaves remaining <= total, never lowers the total, and adds
      the deduction to the remaining debt; the invariant is kept. */
  lemma ReverseDebtFacts(d: DebtState, deduction: real)
    ensures var r := ReverseDebt(d, deduction);
      (deduction > 0.0 ==> r.remaining == d.remaining + deduction && r.remaining <= r.total && r.total >= d.total) &&
      (deduction <= 0.0 ==> r == d) &&
      (DebtInvariant(d) ==> DebtInvariant(r))
  {
  }

  /** Deleting a settlement whose deduction only partly paid the debt restores the ledger. */
  lemma ReversalUndoesPartialPayment(d: DebtState, payment: real)
    requires DebtInvariant(d) && 0.0 < payment < d.remaining
    ensures ReverseDebt(PayDebt(d, payment).after, payment) == d
  {
  }

  /** Deleting a settlement whose deduction paid off the debt puts back the whole deduction, which
      is more than was owed when the deduction exceeded the remaining debt. */
  lemma ReversalAfterPayoff(d: DebtState, payment: real)
    requires DebtInvariant(d) && 0.0 < d.remaining <= payment
    ensures var r := ReverseDebt(PayDebt(d, payment).after, payment);
      r.remaining == payment && r.remaining - d.remaining == payment - d.remaining &&
      r.total == (if payment > d.total then payment else d.total)
  {
  }

  /** Deleting a settlement whose deduction was booked as new debt does not take it off again:
      it is added a second time, so the remaining debt is twice the deduction. */
  lemma ReversalAfterNewDebt(d: DebtState, payment: real)
    requires DebtInvariant(d) && d.remaining == 0.0 && payment > 0.0
    ensures var r := ReverseDebt(PayDebt(d, payment).after, payment);
      r.remaining == 2.0 * payment &&
      r.total == (if 2.0 * payment > d.total + payment then 2.0 * payment else d.total + payment)
  {
  }

  /** From an empty ledger, a settlement with a 10000 deduction books 10000 of new debt; deleting
      it leaves 20000 owed. */
  lemma CreateThenDeleteExample()
    ensures PayDebt(DebtState(0.0, 0.0), 10000.0) == Payment(DebtState(10000.0, 10000.0), 0.0)
    ensures StatusOf(DebtState(10000.0, 10000.0), 0.0, 10000.0) == NewDebtAdded(10000.0)
    ensures ReverseDebt(DebtState(10000.0, 10000.0), 10000.0) == DebtState(20000.0, 20000.0)
  {
    assert PayDebt(DebtState(0.0, 0.0), 10000.0).after == DebtState(10000.0, 10000.0);
    assert ReverseDebt(DebtState(10000.0, 10000.0), 10000.0).remaining == 20000.0;
  }

  // ---- Advances ----

  /** Adding an advance changes only the adding member's outstanding advance, by the amount, and
      only when it is accepted; the members known stay the same; an accepted advance appends one
      row, filed under the Monday-to-Sunday week holding today. */
  lemma {:induction false} AddAdvanceEffect(b: Book, memberName: string, amount: real, today: Date)
    requires Valid(today)
    ensures var a := AddAdvanceTo(b, memberName, amount, today);
      a.outstanding.Keys == b.outstanding.Keys &&
      (forall n :: n in b.outstanding ==>
        a.outstanding[n] == b.outstanding[n] + (if n == memberName && AdvanceAccepted(memberName, amount) then amount else 0.0)) &&
      (AdvanceAccepted(memberName, amount) ==>
        |a.records| == |b.records| + 1 && a.records[..|b.records|] == b.records &&
        a.records[|b.records|].memberName == memberName && a.records[|b.records|].amount == amount &&
        a.records[|b.records|].advanceDate == today &&
        Weekday(a.records[|b.records|].weekStart) == 0 && Weekday(a.records[|b.records|].weekEnd) == 6 &&
        DateLe(a.records[|b.records|].weekStart, today) && DateLe(today, a.records[|b.records|].weekEnd)) &&
      (!AdvanceAccepted(memberName, amount) ==> a == b)
  {
    if AdvanceAccepted(memberName, amount) {
      WeekHoldsDate(today);
      var a := AddAdvanceTo(b, memberName, amount, today);
      assert a.records[..|b.records|] == b.records;
    }
  }

  /** Deleting an advance removes exactly that row and takes its amount off its member's
      outstanding advance, leaving the other members alone. */
  lemma {:induction false} DeleteAdvanceEffect(b: Book, k: int)
    requires 0 <= k < |b.records|
    ensures var r, a := b.records[k], DeleteAdvanceFrom(b, k);
      |a.records| == |b.records| - 1 &&
      multiset(a.records) == multiset(b.records) - multiset{r} &&
      a.outstanding.Keys == b.outstanding.Keys &&
      (forall n :: n in b.outstanding ==>
        a.outstanding[n] == b.outstanding[n] - (if n == r.memberName then r.amount else 0.0))
  {
    var r := b.records[k];
    assert b.records == b.records[..k] + [r] + b.records[k + 1..];
  }

  /** Deleting the advance just added restores both the rows and the outstanding advances. */
  lemma {:induction false} AddThenDeleteRestores(b: Book, memberName: string, amount: real, today: Date)
    requires Valid(today) && AdvanceAccepted(memberName, amount)
    ensures |AddAdvanceTo(b, memberName, amount, today).records| == |b.records| + 1
    ensures DeleteAdvanceFrom(AddAdvanceTo(b, memberName, amount, today), |b.records|) == b
  {
    var a := AddAdvanceTo(b, memberName, amount, today);
    var n := |b.records|;
    assert a.records[..n] + a.records[n + 1..] == b.records;
    var m := Debit(a.outstanding, memberName, amount);
    assert m == b.outstanding by {
      if memberName in b.outstanding {
        assert m.Keys == b.outstanding.Keys;
        forall x | x in m ensures m[x] == b.outstanding[x] {
        }
      }
    }
  }

  // ---- The items of a created settlement ----

  /** A new settlement has one unpaid, not yet received item per member of the share table, in
      its order, carrying that member's gross share, quantised advance and final payout. */
  lemma {:induction false} ItemsMatchSettlement(cfg: Config, totalIncome: real, totalExpenses: real, advances: Table,
                                                weekStart: Date, weekEnd: Date, substitute: bool)
    requires ValidConfig(cfg) && Valid(weekStart)
    ensures var v := Settle(cfg, totalIncome, totalExpenses, advances, weekStart, weekEnd, substitute);
            var items := ItemsOf(v, advances);
      |items| == |cfg.shares| &&
      forall i :: 0 <= i < |items| ==>
        items[i].memberName == cfg.shares[i].name &&
        items[i].grossShare == GrossAt(cfg, v.netDistributable, i) &&
        items[i].advance == AdvanceAt(cfg, advances, i) &&
        items[i].netPayout == FinalAt(cfg, v.netDistributable, advances, substitute, i) &&
        !items[i].isPaid && items[i].receivedAt == None
  {
    var v := Settle(cfg, totalIncome, totalExpenses, advances, weekStart, weekEnd, substitute);
    var p := v.netPayouts;
    assert Distinct(p) by {
      assert forall i :: 0 <= i < |p| ==> p[i].name == cfg.shares[i].name;
    }
    forall i | 0 <= i < |cfg.shares|
      ensures Get(p, cfg.shares[i].name) == FinalAt(cfg, v.netDistributable, advances, substitute, i)
    {
      GetAt(p, i);
    }
  }

  // ---- Marking received ----

  /** Marking succeeds exactly for an existing item that is unpaid with a positive payout; it
      stamps that item's received time and changes nothing else, and the item stays unpaid. */
  lemma MarkReceivedGuard(st: RecordState, k: int, now: int)
    ensures var (outcome, after) := MarkReceivedIn(st, k, now);
      (outcome == ItemNotFound <==> !(0 <= k < |st.items|)) &&
      (outcome == MarkedReceived <==> 0 <= k < |st.items| && st.items[k].netPayout > 0.0 && !st.items[k].isPaid) &&
      (outcome != MarkedReceived ==> after == st) &&
      (outcome == MarkedReceived ==>
        after.isCompleted == st.isCompleted && |after.items| == |st.items| &&
        after.items[k].receivedAt == Some(now) && !after.items[k].isPaid &&
        after.items[k].(receivedAt := st.items[k].receivedAt) == st.items[k] &&
        forall j :: 0 <= j < |st.items| && j != k ==> after.items[j] == st.items[j])
  {
  }

  /** Marking received does not set the paid flag, so the same item can be marked again, which
      only moves its received time. */
  lemma MarkReceivedRepeatable(st: RecordState, k: int, now1: int, now2: int)
    requires MarkReceivedIn(st, k, now1).0 == MarkedReceived
    ensures var once := MarkReceivedIn(st, k, now1).1;
      MarkReceivedIn(once, k, now2).0 == MarkedReceived &&
      MarkReceivedIn(once, k, now2).1 == MarkReceivedIn(st, k, now2).1
  {
    var once := MarkReceivedIn(st, k, now1).1;
    assert once.items[k := once.items[k].(receivedAt := Some(now2))] == st.items[k := st.items[k].(receivedAt := Some(now2))];
  }
}
