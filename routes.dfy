/** The state changes made by the main handlers: the debt ledger updated when a settlement is
    created and reversed when it is deleted, the outstanding-advance bookkeeping of adding and
    deleting an advance, the creation of a settlement with its items, and marking a payout
    received. The database rows are objects and values passed in; the clock is a parameter. */
module Routes {
  import opened Money
  import opened Calendar
  import opened Tables
  import opened Settlement
  import opened Advances
  import opened Models

  // ---- Debt ledger ----

  /** The remaining debt is not negative and not more than the debt ever incurred. The ledger
      transitions of this module keep it for a non-negative deduction, which a non-negative income
      gives; no handler checks the income, so a negative one breaks it. The administrator's direct
      debt edit, which is not part of this model, can set the remaining debt to any value. */
  predicate DebtInvariant(d: DebtState) {
    0.0 <= d.remaining <= d.total
  }

  /** The ledger after a settlement's debt deduction, and how much of it paid existing debt. */
  datatype Payment = Payment(after: DebtState, actualPayment: real)

  /** Outstanding debt is paid down by the deduction (fully when it covers the rest); with no
      outstanding debt the deduction is booked as new debt. */
  function PayDebt(d: DebtState, payment: real): Payment {
    if d.remaining > 0.0 then
      if payment >= d.remaining then Payment(DebtState(d.total, 0.0), d.remaining)
      else Payment(DebtState(d.total, d.remaining - payment), payment)
    else Payment(DebtState(d.total + payment, d.remaining + payment), 0.0)
  }

  /** Deleting a settlement puts a positive debt deduction back on the remaining debt, raising the
      total if the remaining debt now exceeds it. */
  function ReverseDebt(d: DebtState, deduction: real): DebtState {
    if deduction > 0.0 then
      var remaining := d.remaining + deduction;
      DebtState(if remaining > d.total then remaining else d.total, remaining)
    else d
  }

  /** The debt part of the message reported after creating a settlement. */
  datatype DebtStatus = FullyPaidOff | DebtPayment(amount: real) | NewDebtAdded(amount: real)

  function StatusOf(after: DebtState, actualPayment: real, debtPayment: real): DebtStatus {
    if after.remaining == 0.0 && after.total > 0.0 then FullyPaidOff
    else if actualPayment > 0.0 then DebtPayment(actualPayment)
    else NewDebtAdded(debtPayment)
  }

  method ApplyDebtPayment(debt: Debt, debtPayment: real) returns (actualPayment: real)
    modifies debt
    ensures Payment(debt.State(), actualPayment) == PayDebt(old(debt.State()), debtPayment)
  {
    if debt.remainingDebt > 0.0 {
      if debtPayment >= debt.remainingDebt {
        actualPayment := debt.remainingDebt;
        debt.remainingDebt := 0.0;
      } else {
        actualPayment := debtPayment;
        debt.remainingDebt := debt.remainingDebt - debtPayment;
      }
    } else {
      debt.totalDebt := debt.totalDebt + debtPayment;
      debt.remainingDebt := debt.remainingDebt + debtPayment;
      actualPayment := 0.0;
    }
  }

  method ReverseDebtPayment(debt: Debt, debtDeduction: real)
    modifies debt
    ensures debt.State() == ReverseDebt(old(debt.State()), debtDeduction)
  {
    if debtDeduction > 0.0 {
      debt.remainingDebt := debt.remainingDebt + debtDeduction;
      if debt.remainingDebt > debt.totalDebt {
        debt.totalDebt := debt.remainingDebt;
      }
    }
  }

  // ---- Advances ----

  /** The member row of that name, if there is one, gets outstanding_advance += amount. */
  function Credit(m: map<string, real>, name: string, amount: real): map<string, real> {
    if name in m then m[name := m[name] + amount] else m
  }

  /** The member row of that name, if there is one, gets outstanding_advance -= amount. */
  function Debit(m: map<string, real>, name: string, amount: real): map<string, real> {
    if name in m then m[name := m[name] - amount] else m
  }

  /** An advance is recorded only for a positive amount and a non-empty member name. */
  predicate AdvanceAccepted(memberName: string, amount: real) {
    amount > 0.0 && memberName != ""
  }

  /** The new row is filed under the Monday-to-Sunday week of today. */
  function AddAdvanceTo(b: Book, memberName: string, amount: real, today: Date): Book
    requires Valid(today)
  {
    if AdvanceAccepted(memberName, amount) then
      var week := WeekStartEnd(today);
      Book(b.records + [AdvanceRecord(memberName, amount, today, week.0, week.1)], Credit(b.outstanding, memberName, amount))
    else b
  }

  function DeleteAdvanceFrom(b: Book, k: int): Book
    requires 0 <= k < |b.records|
  {
    var r := b.records[k];
    Book(b.records[..k] + b.records[k + 1..], Debit(b.outstanding, r.memberName, r.amount))
  }

  method AddAdvance(book: AdvanceBook, memberName: string, amount: real, today: Date) returns (success: bool)
    requires Valid(today)
    modifies book
    ensures success == AdvanceAccepted(memberName, amount)
    ensures book.State() == AddAdvanceTo(old(book.State()), memberName, amount, today)
  {
    if !(amount > 0.0 && memberName != "") {
      return false;
    }
    var week := WeekStartEnd(today);
    book.records := book.records + [AdvanceRecord(memberName, amount, today, week.0, week.1)];
    book.outstanding := Credit(book.outstanding, memberName, amount);
    success := true;
  }

  /** The advance is addressed by its position in the table; a position outside it is a 404. */
  method DeleteAdvance(book: AdvanceBook, k: int) returns (found: bool)
    modifies book
    ensures found <==> 0 <= k < |old(book.records)|
    ensures found ==> book.State() == DeleteAdvanceFrom(old(book.State()), k)
    ensures !found ==> book.State() == old(book.State())
  {
    if !(0 <= k < |book.records|) {
      return false;
    }
    var advance := book.records[k];
    book.outstanding := Debit(book.outstanding, advance.memberName, advance.amount);
    book.records := book.records[..k] + book.records[k + 1..];
    found := true;
  }

  // ---- Creating a settlement ----

  /** One unpaid item per member of the gross shares, carrying the gross share, the quantised
      advance and the net payout of that member. */
  function ItemsOf(values: SettlementValues, advances: Table): seq<Item> {
    seq(|values.grossShares|, i requires 0 <= i < |values.grossShares| =>
      var name := values.grossShares[i].name;
      Item(name, values.grossShares[i].value, Quant(Get(advances, name)), Get(values.netPayouts, name), false, None, None, None))
  }

  /** The item rows of a new settlement, one per member in the order of the gross shares. */
  method BuildItems(values: SettlementValues, advances: Table) returns (items: seq<Item>)
    ensures items == ItemsOf(values, advances)
  {
    items := [];
    var i := 0;
    while i < |values.grossShares|
      invariant 0 <= i <= |values.grossShares|
      invariant items == ItemsOf(values, advances)[..i]
    {
      var name := values.grossShares[i].name;
      items := items + [Item(name, values.grossShares[i].value, Quant(Get(advances, name)),
                             Get(values.netPayouts, name), false, None, None, None)];
      i := i + 1;
    }
  }

  /** The week of refDate is settled with that week's advances; the debt ledger (created empty
      when there is none) takes the debt deduction, and the status reports the outcome. */
  method CreateSettlement(cfg: Config, book: AdvanceBook, debt: Debt?, refDate: Date,
                          totalIncome: real, totalExpenses: real, felixSubstitute: bool)
    returns (settlement: SettlementRecord, ledger: Debt, status: DebtStatus)
    requires ValidConfig(cfg) && Valid(refDate)
    modifies debt
    ensures var week := WeekStartEnd(refDate);
            var advances := WeeklyTotals(RecordsOfWeek(book.records, week.0, week.1));
            var values := Settle(cfg, totalIncome, totalExpenses, advances, week.0, week.1, felixSubstitute);
            var start := if debt != null then old(debt.State()) else DebtState(0.0, 0.0);
            var payment := PayDebt(start, values.debt);
      fresh(settlement) &&
      settlement.values == values &&
      settlement.State() == RecordState(false, None, None, ItemsOf(values, advances)) &&
      (debt != null ==> ledger == debt) && (debt == null ==> fresh(ledger)) &&
      ledger.State() == payment.after &&
      status == StatusOf(payment.after, payment.actualPayment, values.debt) &&
      (DebtInvariant(start) && totalIncome >= 0.0 && cfg.debtPercent >= 0.0 ==> DebtInvariant(ledger.State()))
  {
    var week := WeekStartEnd(refDate);
    var advancesDict := GetWeeklyAdvances(book.records, week.0, week.1);
    var calculated := CalculateSettlementValues(cfg, totalIncome, totalExpenses, advancesDict, week.0, week.1, felixSubstitute);

    if debt == null {
      ledger := new Debt();
    } else {
      ledger := debt;
    }
    var debtPayment := calculated.debt;
    var actualPayment := ApplyDebtPayment(ledger, debtPayment);

    var items := BuildItems(calculated, advancesDict);
    settlement := new SettlementRecord(calculated, items);

    if ledger.remainingDebt == 0.0 && ledger.totalDebt > 0.0 {
      status := FullyPaidOff;
    } else if actualPayment > 0.0 {
      status := DebtPayment(actualPayment);
    } else {
      status := NewDebtAdded(debtPayment);
    }
    if totalIncome >= 0.0 && cfg.debtPercent >= 0.0 {
      DebtDueNonNegative(cfg, totalIncome);
    }
  }

  // ---- Marking a payout received ----

  datatype ReceiveOutcome = ItemNotFound | InvalidOperation | MarkedReceived

  /** Only an unpaid item with a positive payout can be marked received; that stamps its
      received time and nothing else. */
  function MarkReceivedIn(st: RecordState, k: int, now: int): (ReceiveOutcome, RecordState) {
    if !(0 <= k < |st.items|) then (ItemNotFound, st)
    else if st.items[k].netPayout > 0.0 && !st.items[k].isPaid
    then (MarkedReceived, st.(items := st.items[k := st.items[k].(receivedAt := Some(now))]))
    else (InvalidOperation, st)
  }

  /** The item is addressed by its settlement and its position there. */
  method MarkReceived(settlement: SettlementRecord, k: int, now: int) returns (outcome: ReceiveOutcome)
    modifies settlement
    ensures (outcome, settlement.State()) == MarkReceivedIn(old(settlement.State()), k, now)
  {
    if !(0 <= k < |settlement.items|) {
      return ItemNotFound;
    }
    var item := settlement.items[k];
    if item.netPayout > 0.0 && !item.isPaid {
      settlement.items := settlement.items[k := item.(receivedAt := Some(now))];
      outcome := MarkedReceived;
    } else {
      outcome := InvalidOperation;
    }
  }

  // ---- Deleting a settlement ----

  /** DeleteFailed is the error reply for an id with no settlement. */
  datatype DeleteOutcome = AdminRequired | DeleteFailed | CannotDeleteCompleted | SettlementDeleted

  /** Only an admin may delete, and only a settlement that is not completed; deleting it removes
      it with its items and reverses its debt deduction on the ledger, if there is one. */
  method DeleteSettlement(role: string, settlements: map<int, SettlementRecord>, id: int, debt: Debt?)
    returns (outcome: DeleteOutcome, remaining: map<int, SettlementRecord>)
    modifies debt
    ensures outcome == AdminRequired <==> role != "admin"
    ensures outcome == DeleteFailed <==> role == "admin" && id !in settlements
    ensures outcome == CannotDeleteCompleted <==> role == "admin" && id in settlements && settlements[id].isCompleted
    ensures outcome == SettlementDeleted <==> role == "admin" && id in settlements && !settlements[id].isCompleted
    ensures outcome == SettlementDeleted ==> remaining == settlements - {id}
    ensures outcome != SettlementDeleted ==> remaining == settlements
    ensures debt != null ==>
      debt.State() == if outcome == SettlementDeleted then ReverseDebt(old(debt.State()), settlements[id].values.debt) else old(debt.State())
  {
    remaining := settlements;
    if role != "admin" {
      return AdminRequired, remaining;
    }
    if id !in settlements {
      return DeleteFailed, remaining;
    }
    var settlement := settlements[id];
    if settlement.isCompleted {
      return CannotDeleteCompleted, remaining;
    }
    if debt != null && settlement.values.debt > 0.0 {
      ReverseDebtPayment(debt, settlement.values.debt);
    }
    remaining := settlements - {id};
    outcome := SettlementDeleted;
  }
}
