/** The weekly settlement calculator (calculate_settlement_values) and the input checks of
    validate_settlement_data. The stage functions below specify, member by member, what the
    method's loops compute; SettlementProperties proves what they mean. */
module Settlement {
  import opened Money
  import opened Calendar
  import opened Tables

  /** The deployment constants, passed explicitly: the share table (member name to ratio), the
      member who draws the weekly salary, the daily salary, rent, milk bill and debt percentage. */
  datatype Config = Config(
    shares: Table,
    salariedMember: string,
    dailySalary: real,
    rent: real,
    milkBill: real,
    debtPercent: real)

  const WeekDays: int := 7

  /** The values the application ships with. */
  const DefaultConfig: Config := Config(
    [Entry("Bett", 0.775), Entry("Felix", 0.086), Entry("Willy", 0.139)],
    "Felix", 1000.00, 12000.00, 1500.00, 0.10)

  /** Share names are dictionary keys, so distinct; a ratio that is not positive could make the
      redistribution divide by zero. */
  predicate ValidConfig(cfg: Config) {
    Distinct(cfg.shares) && forall i :: 0 <= i < |cfg.shares| ==> cfg.shares[i].value > 0.0
  }

  /** The dictionary calculate_settlement_values returns. */
  datatype SettlementValues = SettlementValues(
    income: real,
    expenses: real,
    salaryTotal: real,
    debt: real,
    rent: real,
    milk: real,
    totalAdvances: real,
    netDistributable: real,
    grossShares: Table,
    netPayouts: Table,
    weekStart: Date,
    weekEnd: Date,
    felixSubstitute: bool)

  // ---- Deductions ----

  function SalaryTotal(cfg: Config, substitute: bool): real {
    if substitute then 0.0 else Quant(Times(cfg.dailySalary, WeekDays as real))
  }

  function DebtDue(cfg: Config, totalIncome: real): real {
    Quant(Times(Quant(totalIncome), cfg.debtPercent))
  }

  /** The debt deduction is not negative when the income and the debt percentage are not. */
  lemma DebtDueNonNegative(cfg: Config, totalIncome: real)
    requires totalIncome >= 0.0 && cfg.debtPercent >= 0.0
    ensures DebtDue(cfg, totalIncome) >= 0.0
  {
    TimesNonNegative(Quant(totalIncome), cfg.debtPercent);
  }

  function RentDue(cfg: Config, weekStart: Date, weekEnd: Date): real
    requires Valid(weekStart)
  {
    if IsLastWeekOfMonth(weekStart, weekEnd) then cfg.rent else 0.0
  }

  function MilkDue(cfg: Config, weekStart: Date, weekEnd: Date): real
    requires Valid(weekStart)
  {
    if IsLastWeekOfMonth(weekStart, weekEnd) then cfg.milkBill else 0.0
  }

  function TotalDeductions(cfg: Config, totalIncome: real, totalExpenses: real, weekStart: Date, weekEnd: Date, substitute: bool): real
    requires Valid(weekStart)
  {
    Quant(totalExpenses) + SalaryTotal(cfg, substitute) + DebtDue(cfg, totalIncome)
      + RentDue(cfg, weekStart, weekEnd) + MilkDue(cfg, weekStart, weekEnd)
  }

  function NetDistributable(cfg: Config, totalIncome: real, totalExpenses: real, weekStart: Date, weekEnd: Date, substitute: bool): real
    requires Valid(weekStart)
  {
    Quant(Max(Quant(totalIncome) - TotalDeductions(cfg, totalIncome, totalExpenses, weekStart, weekEnd, substitute), 0.0))
  }

  // ---- First pass: gross share minus advance, per position i of the share table ----

  function GrossAt(cfg: Config, net: real, i: int): real
    requires 0 <= i < |cfg.shares|
  {
    Quant(Times(net, cfg.shares[i].value))
  }

  function AdvanceAt(cfg: Config, adv: Table, i: int): real
    requires 0 <= i < |cfg.shares|
  {
    Quant(Get(adv, cfg.shares[i].name))
  }

  function ProvisionalAt(cfg: Config, net: real, adv: Table, i: int): real
    requires 0 <= i < |cfg.shares|
  {
    GrossAt(cfg, net, i) - AdvanceAt(cfg, adv, i)
  }

  /** The member took more advance than their gross share. */
  predicate OverAdvancedAt(cfg: Config, net: real, adv: Table, i: int)
    requires 0 <= i < |cfg.shares|
  {
    ProvisionalAt(cfg, net, adv, i) < 0.0
  }

  function InitialAt(cfg: Config, net: real, adv: Table, i: int): real
    requires 0 <= i < |cfg.shares|
  {
    if OverAdvancedAt(cfg, net, adv, i) then 0.0 else ProvisionalAt(cfg, net, adv, i)
  }

  function ExcessAt(cfg: Config, net: real, adv: Table, i: int): real
    requires 0 <= i < |cfg.shares|
  {
    if OverAdvancedAt(cfg, net, adv, i) then -ProvisionalAt(cfg, net, adv, i) else 0.0
  }

  /** total_over_advance after the first n members. */
  function TotalOverAdvance(cfg: Config, net: real, adv: Table, n: int): real
    requires 0 <= n <= |cfg.shares|
  {
    if n == 0 then 0.0 else TotalOverAdvance(cfg, net, adv, n - 1) + ExcessAt(cfg, net, adv, n - 1)
  }

  /** valid_share_total after the first n members: the ratios of those not over-advanced. */
  function NormalShareTotal(cfg: Config, net: real, adv: Table, n: int): real
    requires 0 <= n <= |cfg.shares|
  {
    if n == 0 then 0.0
    else
      var ratio := if OverAdvancedAt(cfg, net, adv, n - 1) then 0.0 else cfg.shares[n - 1].value;
      NormalShareTotal(cfg, net, adv, n - 1) + ratio
  }

  /** With positive ratios, a member who is not over-advanced contributes a positive ratio to
      valid_share_total, so the redistribution never divides by zero. */
  lemma {:induction false} NormalShareTotalCovers(cfg: Config, net: real, adv: Table, i: int, n: int)
    requires ValidConfig(cfg) && 0 <= i < n <= |cfg.shares|
    requires !OverAdvancedAt(cfg, net, adv, i)
    ensures NormalShareTotal(cfg, net, adv, n) >= cfg.shares[i].value > 0.0
    decreases n
  {
    if i < n - 1 {
      NormalShareTotalCovers(cfg, net, adv, i, n - 1);
    } else {
      NormalShareTotalNonNegative(cfg, net, adv, n - 1);
    }
  }

  lemma {:induction false} NormalShareTotalNonNegative(cfg: Config, net: real, adv: Table, n: int)
    requires ValidConfig(cfg) && 0 <= n <= |cfg.shares|
    ensures NormalShareTotal(cfg, net, adv, n) >= 0.0
    decreases n
  {
    if n > 0 {
      NormalShareTotalNonNegative(cfg, net, adv, n - 1);
    }
  }

  // ---- Redistribution of the over-advance excess ----

  /** quant(total_over_advance * ratio / valid_share_total) for a member not over-advanced. */
  function ExcessShareAt(cfg: Config, net: real, adv: Table, i: int): real
    requires ValidConfig(cfg) && 0 <= i < |cfg.shares|
    requires !OverAdvancedAt(cfg, net, adv, i)
  {
    NormalShareTotalCovers(cfg, net, adv, i, |cfg.shares|);
    Quant(Times(TotalOverAdvance(cfg, net, adv, |cfg.shares|),
                Fraction(cfg.shares[i].value, NormalShareTotal(cfg, net, adv, |cfg.shares|))))
  }

  /** The payout after redistribution, before salary. */
  function RedistributedAt(cfg: Config, net: real, adv: Table, i: int): real
    requires ValidConfig(cfg) && 0 <= i < |cfg.shares|
  {
    if TotalOverAdvance(cfg, net, adv, |cfg.shares|) > 0.0 && !OverAdvancedAt(cfg, net, adv, i)
    then InitialAt(cfg, net, adv, i) + ExcessShareAt(cfg, net, adv, i)
    else InitialAt(cfg, net, adv, i)
  }

  /** The final payout: the salaried member also gets the salary unless a substitute worked. */
  function FinalAt(cfg: Config, net: real, adv: Table, substitute: bool, i: int): real
    requires ValidConfig(cfg) && 0 <= i < |cfg.shares|
  {
    if cfg.shares[i].name == cfg.salariedMember && !substitute
    then RedistributedAt(cfg, net, adv, i) + SalaryTotal(cfg, substitute)
    else RedistributedAt(cfg, net, adv, i)
  }

  /** Without any excess there is nothing to redistribute. */
  lemma NoExcessKeepsInitial(cfg: Config, net: real, adv: Table)
    requires ValidConfig(cfg)
    requires TotalOverAdvance(cfg, net, adv, |cfg.shares|) <= 0.0
    ensures RedistributedTable(cfg, net, adv) == InitialTable(cfg, net, adv)
  {
  }

  // ---- The tables, keyed like the share table ----

  function GrossTable(cfg: Config, net: real): Table {
    seq(|cfg.shares|, i requires 0 <= i < |cfg.shares| => Entry(cfg.shares[i].name, GrossAt(cfg, net, i)))
  }

  /** The quantised advance per member, as stored on each settlement item. */
  function AdvanceTable(cfg: Config, adv: Table): Table {
    seq(|cfg.shares|, i requires 0 <= i < |cfg.shares| => Entry(cfg.shares[i].name, AdvanceAt(cfg, adv, i)))
  }

  function InitialTable(cfg: Config, net: real, adv: Table): Table {
    seq(|cfg.shares|, i requires 0 <= i < |cfg.shares| => Entry(cfg.shares[i].name, InitialAt(cfg, net, adv, i)))
  }

  function RedistributedTable(cfg: Config, net: real, adv: Table): Table
    requires ValidConfig(cfg)
  {
    seq(|cfg.shares|, i requires 0 <= i < |cfg.shares| => Entry(cfg.shares[i].name, RedistributedAt(cfg, net, adv, i)))
  }

  function PayoutTable(cfg: Config, net: real, adv: Table, substitute: bool): Table
    requires ValidConfig(cfg)
  {
    seq(|cfg.shares|, i requires 0 <= i < |cfg.shares| => Entry(cfg.shares[i].name, FinalAt(cfg, net, adv, substitute, i)))
  }

  /** The whole result of calculate_settlement_values, as a function of its inputs. */
  function Settle(cfg: Config, totalIncome: real, totalExpenses: real, advances: Table,
                  weekStart: Date, weekEnd: Date, substitute: bool): SettlementValues
    requires ValidConfig(cfg) && Valid(weekStart)
  {
    var net := NetDistributable(cfg, totalIncome, totalExpenses, weekStart, weekEnd, substitute);
    SettlementValues(
      Quant(totalIncome), Quant(totalExpenses), SalaryTotal(cfg, substitute), DebtDue(cfg, totalIncome),
      RentDue(cfg, weekStart, weekEnd), MilkDue(cfg, weekStart, weekEnd), Quant(Total(advances)), net,
      GrossTable(cfg, net), PayoutTable(cfg, net, advances, substitute), weekStart, weekEnd, substitute)
  }

  // ---- The calculator, one method per pass of calculate_settlement_values ----

  /** First pass: gross share minus advance per member; over-advanced members get 0 and their
      excess is recorded and summed. */
  method FirstPass(cfg: Config, netDistributable: real, advances: Table)
    returns (initialPayouts: Table, overAdvanceMembers: Table, totalOverAdvance: real)
    requires Distinct(cfg.shares)
    ensures initialPayouts == InitialTable(cfg, netDistributable, advances)
    ensures forall k :: 0 <= k < |cfg.shares| ==>
      (Has(overAdvanceMembers, cfg.shares[k].name) <==> OverAdvancedAt(cfg, netDistributable, advances, k))
    ensures totalOverAdvance == TotalOverAdvance(cfg, netDistributable, advances, |cfg.shares|)
  {
    var shares, nd := cfg.shares, netDistributable;
    initialPayouts, overAdvanceMembers, totalOverAdvance := [], [], 0.0;
    var i := 0;
    while i < |shares|
      invariant 0 <= i <= |shares|
      invariant |initialPayouts| == i
      invariant forall k :: 0 <= k < i ==> initialPayouts[k] == Entry(shares[k].name, InitialAt(cfg, nd, advances, k))
      invariant forall k :: 0 <= k < |shares| ==>
        (Has(overAdvanceMembers, shares[k].name) <==> k < i && OverAdvancedAt(cfg, nd, advances, k))
      invariant totalOverAdvance == TotalOverAdvance(cfg, nd, advances, i)
    {
      var name, ratio := shares[i].name, shares[i].value;
      var gross := Quant(Times(netDistributable, ratio));
      var advance := Quant(Get(advances, name));
      var netPayout := gross - advance;
      ghost var before := overAdvanceMembers;
      if netPayout < 0.0 {
        overAdvanceMembers := overAdvanceMembers + [Entry(name, -netPayout)];
        totalOverAdvance := totalOverAdvance + -netPayout;
        initialPayouts := initialPayouts + [Entry(name, 0.0)];
      } else {
        initialPayouts := initialPayouts + [Entry(name, netPayout)];
      }
      forall k | 0 <= k < |shares|
        ensures Has(overAdvanceMembers, shares[k].name) <==> k < i + 1 && OverAdvancedAt(cfg, nd, advances, k)
      {
        if netPayout < 0.0 {
          HasAppend(before, Entry(name, -netPayout), shares[k].name);
        }
      }
      i := i + 1;
    }
  }

  /** valid_share_total: the ratios of the members not over-advanced. */
  method ValidShareTotal(cfg: Config, netDistributable: real, advances: Table, overAdvanceMembers: Table)
    returns (validShareTotal: real)
    requires forall k :: 0 <= k < |cfg.shares| ==>
      (Has(overAdvanceMembers, cfg.shares[k].name) <==> OverAdvancedAt(cfg, netDistributable, advances, k))
    ensures validShareTotal == NormalShareTotal(cfg, netDistributable, advances, |cfg.shares|)
  {
    validShareTotal := 0.0;
    var j := 0;
    while j < |cfg.shares|
      invariant 0 <= j <= |cfg.shares|
      invariant validShareTotal == NormalShareTotal(cfg, netDistributable, advances, j)
    {
      if !Has(overAdvanceMembers, cfg.shares[j].name) {
        validShareTotal := validShareTotal + cfg.shares[j].value;
      }
      j := j + 1;
    }
  }

  /** Adds to each member not over-advanced their share of the total excess, in place. */
  method Redistribute(cfg: Config, netDistributable: real, advances: Table, initialPayouts: Table,
                      overAdvanceMembers: Table, totalOverAdvance: real, validShareTotal: real)
    returns (payouts: Table)
    requires ValidConfig(cfg)
    requires initialPayouts == InitialTable(cfg, netDistributable, advances)
    requires forall k :: 0 <= k < |cfg.shares| ==>
      (Has(overAdvanceMembers, cfg.shares[k].name) <==> OverAdvancedAt(cfg, netDistributable, advances, k))
    requires totalOverAdvance == TotalOverAdvance(cfg, netDistributable, advances, |cfg.shares|) > 0.0
    requires validShareTotal == NormalShareTotal(cfg, netDistributable, advances, |cfg.shares|)
    ensures payouts == RedistributedTable(cfg, netDistributable, advances)
  {
    var shares, nd, total := cfg.shares, netDistributable, |cfg.shares|;
    payouts := initialPayouts;
    var j := 0;
    while j < |payouts|
      invariant 0 <= j <= |payouts| == total
      invariant forall k :: 0 <= k < j ==> payouts[k] == Entry(shares[k].name, RedistributedAt(cfg, nd, advances, k))
      invariant forall k :: j <= k < total ==> payouts[k] == Entry(shares[k].name, InitialAt(cfg, nd, advances, k))
    {
      var name := payouts[j].name;
      if !Has(overAdvanceMembers, name) {
        GetAt(shares, j);
        NormalShareTotalCovers(cfg, nd, advances, j, total);
        var redistributionRatio := Fraction(Get(shares, name), validShareTotal);
        var additionalShare := Quant(Times(totalOverAdvance, redistributionRatio));
        payouts := payouts[j := Entry(name, payouts[j].value + additionalShare)];
      }
      j := j + 1;
    }
  }

  /** The salaried member's payout gains the salary unless a substitute worked. */
  method ApplySalary(cfg: Config, netDistributable: real, advances: Table, payouts: Table,
                     felixSubstitute: bool, salaryTotal: real)
    returns (finalPayouts: Table)
    requires ValidConfig(cfg)
    requires payouts == RedistributedTable(cfg, netDistributable, advances)
    requires salaryTotal == SalaryTotal(cfg, felixSubstitute)
    ensures finalPayouts == PayoutTable(cfg, netDistributable, advances, felixSubstitute)
  {
    finalPayouts := [];
    var i := 0;
    while i < |payouts|
      invariant 0 <= i <= |payouts| == |cfg.shares|
      invariant |finalPayouts| == i
      invariant forall k :: 0 <= k < i ==>
        finalPayouts[k] == Entry(cfg.shares[k].name, FinalAt(cfg, netDistributable, advances, felixSubstitute, k))
    {
      var name, payout := payouts[i].name, payouts[i].value;
      if name == cfg.salariedMember && !felixSubstitute {
        finalPayouts := finalPayouts + [Entry(name, payout + salaryTotal)];
      } else {
        finalPayouts := finalPayouts + [Entry(name, payout)];
      }
      i := i + 1;
    }
  }

  /** Gross shares before advance deduction, for display. */
  method GrossShares(cfg: Config, netDistributable: real) returns (grossShares: Table)
    ensures grossShares == GrossTable(cfg, netDistributable)
  {
    grossShares := [];
    var i := 0;
    while i < |cfg.shares|
      invariant 0 <= i <= |cfg.shares|
      invariant |grossShares| == i
      invariant forall k :: 0 <= k < i ==> grossShares[k] == Entry(cfg.shares[k].name, GrossAt(cfg, netDistributable, k))
    {
      var gross := Quant(Times(netDistributable, cfg.shares[i].value));
      assert gross == GrossAt(cfg, netDistributable, i);
      grossShares := grossShares + [Entry(cfg.shares[i].name, gross)];
      i := i + 1;
    }
  }

  method CalculateSettlementValues(cfg: Config, totalIncome: real, totalExpenses: real, advances: Table,
                                   weekStart: Date, weekEnd: Date, felixSubstitute: bool)
    returns (r: SettlementValues)
    requires ValidConfig(cfg) && Valid(weekStart)
    ensures r == Settle(cfg, totalIncome, totalExpenses, advances, weekStart, weekEnd, felixSubstitute)
  {
    var income := Quant(totalIncome);
    var expenses := Quant(totalExpenses);

    var salaryTotal := 0.0;
    if !felixSubstitute {
      salaryTotal := Quant(Times(cfg.dailySalary, WeekDays as real));
    }
    var debt := Quant(Times(income, cfg.debtPercent));
    var rent, milk := 0.0, 0.0;
    if IsLastWeekOfMonth(weekStart, weekEnd) {
      rent, milk := cfg.rent, cfg.milkBill;
    }
    var totalAdvances := Quant(Total(advances));

    var net := income - (expenses + salaryTotal + debt + rent + milk);
    var netDistributable := Quant(Max(net, 0.0));

    var initialPayouts, overAdvanceMembers, totalOverAdvance := FirstPass(cfg, netDistributable, advances);
    var payouts := initialPayouts;
    if totalOverAdvance > 0.0 {
      var validShareTotal := ValidShareTotal(cfg, netDistributable, advances, overAdvanceMembers);
      payouts := Redistribute(cfg, netDistributable, advances, initialPayouts, overAdvanceMembers,
                              totalOverAdvance, validShareTotal);
    } else {
      NoExcessKeepsInitial(cfg, netDistributable, advances);
    }
    var finalPayouts := ApplySalary(cfg, netDistributable, advances, payouts, felixSubstitute, salaryTotal);
    var grossShares := GrossShares(cfg, netDistributable);

    r := SettlementValues(income, expenses, salaryTotal, debt, rent, milk, totalAdvances, netDistributable,
                          grossShares, finalPayouts, weekStart, weekEnd, felixSubstitute);
  }

  // ---- validate_settlement_data (the checks on the amounts) ----

  const IncomeNotPositive: string := "Income must be greater than 0"
  const ExpensesNegative: string := "Expenses cannot be negative"
  const IncomeBelowExpenses: string := "Income cannot be less than expenses"

  /** The position of a validation message among the checks, which run in this order. */
  function CheckOrder(e: string): nat {
    if e == IncomeNotPositive then 0 else if e == ExpensesNegative then 1 else 2
  }

  /** Each check reports its own message, independently of the others and in the order of the
      checks. */
  method ValidateSettlementData(income: real, expenses: real) returns (errors: seq<string>)
    ensures IncomeNotPositive in errors <==> income <= 0.0
    ensures ExpensesNegative in errors <==> expenses < 0.0
    ensures IncomeBelowExpenses in errors <==> income < expenses
    ensures forall e :: e in errors ==> e == IncomeNotPositive || e == ExpensesNegative || e == IncomeBelowExpenses
    ensures forall i, j :: 0 <= i < j < |errors| ==> errors[i] != errors[j]
    ensures forall i, j :: 0 <= i < j < |errors| ==> CheckOrder(errors[i]) < CheckOrder(errors[j])
  {
    errors := [];
    if income <= 0.0 {
      errors := errors + [IncomeNotPositive];
    }
    if expenses < 0.0 {
      errors := errors + [ExpensesNegative];
    }
    if income < expenses {
      errors := errors + [IncomeBelowExpenses];
    }
  }
}
