/** The application's worked settlement scenarios, with the default configuration. */
module SettlementExamples {
  import opened Money
  import opened Calendar
  import opened Tables
  import opened Settlement

  /** A week inside January 2024 (no rent, no milk). */
  const MidMonthStart: Date := Date(2024, 1, 8)
  const MidMonthEnd: Date := Date(2024, 1, 14)

  lemma DefaultConfigValid()
    ensures ValidConfig(DefaultConfig)
    ensures Total(DefaultConfig.shares) == 1.0
  {
    var s := DefaultConfig.shares;
    assert s[..2][..1] == [s[0]] && s[..2] == [s[0], s[1]];
    assert Total([s[0]]) == 0.775;
  }

  /** The deductions of a mid-month week with income 100000 and expenses 20000 and no substitute:
      7000 salary and 10000 debt, leaving 63000. */
  lemma MidMonthNet()
    ensures NetDistributable(DefaultConfig, 100000.0, 20000.0, MidMonthStart, MidMonthEnd, false) == 63000.0
    ensures SalaryTotal(DefaultConfig, false) == 7000.0 && DebtDue(DefaultConfig, 100000.0) == 10000.0
    ensures RentDue(DefaultConfig, MidMonthStart, MidMonthEnd) == 0.0 && MilkDue(DefaultConfig, MidMonthStart, MidMonthEnd) == 0.0
  {
    MonthEndWeekExample();
    QuantOfCents(100000.0);
    QuantOfCents(20000.0);
    QuantOfCents(7000.0);
    QuantOfCents(10000.0);
    QuantOfCents(63000.0);
  }

  /** The gross shares of 63000. */
  lemma GrossOf63000()
    ensures GrossTable(DefaultConfig, 63000.0) == [Entry("Bett", 48825.0), Entry("Felix", 5418.0), Entry("Willy", 8757.0)]
  {
    QuantOfCents(48825.0);
    QuantOfCents(5418.0);
    QuantOfCents(8757.0);
    assert GrossAt(DefaultConfig, 63000.0, 0) == 48825.0;
    assert GrossAt(DefaultConfig, 63000.0, 1) == 5418.0;
    assert GrossAt(DefaultConfig, 63000.0, 2) == 8757.0;
  }

  /** Income 100000, expenses 20000, Bett has drawn 5000: the net distributable amount is 63000,
      split 48825 / 5418 / 8757, Bett's advance comes off Bett's share and Felix gets the 7000 salary. */
  lemma {:induction false} ExampleScenario()
    ensures var r := Settle(DefaultConfig, 100000.0, 20000.0, [Entry("Bett", 5000.0)], MidMonthStart, MidMonthEnd, false);
      r.salaryTotal == 7000.0 && r.debt == 10000.0 && r.rent == 0.0 && r.milk == 0.0 &&
      r.totalAdvances == 5000.0 && r.netDistributable == 63000.0 &&
      r.grossShares == [Entry("Bett", 48825.0), Entry("Felix", 5418.0), Entry("Willy", 8757.0)] &&
      r.netPayouts == [Entry("Bett", 43825.0), Entry("Felix", 12418.0), Entry("Willy", 8757.0)]
  {
    DefaultConfigValid();
    MidMonthNet();
    GrossOf63000();
    var cfg, adv, net := DefaultConfig, [Entry("Bett", 5000.0)], 63000.0;
    QuantOfCents(5000.0);
    QuantOfCents(0.0);
    assert Total(adv) == 5000.0 by { assert adv[..0] == []; }
    assert !Has(adv, "Felix") && !Has(adv, "Willy");
    assert AdvanceAt(cfg, adv, 0) == 5000.0 && AdvanceAt(cfg, adv, 1) == 0.0 && AdvanceAt(cfg, adv, 2) == 0.0;
    assert InitialAt(cfg, net, adv, 0) == 43825.0;
    assert InitialAt(cfg, net, adv, 1) == 5418.0;
    assert InitialAt(cfg, net, adv, 2) == 8757.0;
    assert TotalOverAdvance(cfg, net, adv, 3) == 0.0;
    assert FinalAt(cfg, net, adv, false, 0) == 43825.0;
    assert FinalAt(cfg, net, adv, false, 1) == 12418.0;
    assert FinalAt(cfg, net, adv, false, 2) == 8757.0;
  }

  /** Same week with Bett having drawn 60000 against a gross share of 48825: Bett gets nothing, and
      the excess of 11175 is added to Felix and Willy in the ratio 0.086 : 0.139. */
  lemma {:induction false} OverAdvanceExample()
    ensures var r := Settle(DefaultConfig, 100000.0, 20000.0, [Entry("Bett", 60000.0)], MidMonthStart, MidMonthEnd, false);
      r.netDistributable == 63000.0 &&
      r.netPayouts == [Entry("Bett", 0.0), Entry("Felix", 16689.33), Entry("Willy", 15660.67)]
    ensures TotalOverAdvance(DefaultConfig, 63000.0, [Entry("Bett", 60000.0)], 3) == 11175.0
  {
    DefaultConfigValid();
    MidMonthNet();
    GrossOf63000();
    var cfg, adv, net := DefaultConfig, [Entry("Bett", 60000.0)], 63000.0;
    QuantOfCents(60000.0);
    QuantOfCents(0.0);
    assert !Has(adv, "Felix") && !Has(adv, "Willy");
    assert AdvanceAt(cfg, adv, 0) == 60000.0 && AdvanceAt(cfg, adv, 1) == 0.0 && AdvanceAt(cfg, adv, 2) == 0.0;
    assert OverAdvancedAt(cfg, net, adv, 0) && !OverAdvancedAt(cfg, net, adv, 1) && !OverAdvancedAt(cfg, net, adv, 2);
    assert TotalOverAdvance(cfg, net, adv, 3) == 11175.0;
    assert NormalShareTotal(cfg, net, adv, 3) == 0.225;
    QuantUnique(Times(11175.0, Fraction(0.086, 0.225)), 4271.33);
    QuantUnique(Times(11175.0, Fraction(0.139, 0.225)), 6903.67);
    assert ExcessShareAt(cfg, net, adv, 1) == 4271.33;
    assert ExcessShareAt(cfg, net, adv, 2) == 6903.67;
    assert FinalAt(cfg, net, adv, false, 0) == 0.0;
    assert FinalAt(cfg, net, adv, false, 1) == 16689.33;
    assert FinalAt(cfg, net, adv, false, 2) == 15660.67;
  }

  /** With a substitute working the week no salary is deducted and none is paid: the net
      distributable amount grows to 70000 and Felix receives only his share. */
  lemma {:induction false} SubstituteExample()
    ensures var r := Settle(DefaultConfig, 100000.0, 20000.0, [], MidMonthStart, MidMonthEnd, true);
      r.salaryTotal == 0.0 && r.netDistributable == 70000.0 &&
      r.netPayouts == [Entry("Bett", 54250.0), Entry("Felix", 6020.0), Entry("Willy", 9730.0)]
  {
    DefaultConfigValid();
    MonthEndWeekExample();
    var cfg, adv: Table := DefaultConfig, [];
    QuantOfCents(100000.0);
    QuantOfCents(20000.0);
    QuantOfCents(10000.0);
    QuantOfCents(0.0);
    var net := 70000.0;
    QuantOfCents(net);
    assert NetDistributable(cfg, 100000.0, 20000.0, MidMonthStart, MidMonthEnd, true) == net;
    QuantOfCents(54250.0);
    QuantOfCents(6020.0);
    QuantOfCents(9730.0);
    assert TotalOverAdvance(cfg, net, adv, 3) == 0.0;
  }

  /** The week of 29 January to 4 February 2024 holds the end of January: rent and milk come off
      before the split. */
  lemma {:induction false} MonthEndExample()
    ensures var r := Settle(DefaultConfig, 100000.0, 20000.0, [], Date(2024, 1, 29), Date(2024, 2, 4), false);
      r.rent == 12000.0 && r.milk == 1500.0 && r.netDistributable == 49500.0
  {
    DefaultConfigValid();
    MonthEndWeekExample();
    var cfg := DefaultConfig;
    QuantOfCents(100000.0);
    QuantOfCents(20000.0);
    QuantOfCents(7000.0);
    QuantOfCents(10000.0);
    QuantOfCents(49500.0);
  }

  /** An income of 10000 with expenses of 10000: the 7000 salary and the 1000 debt deduction use
      it up, so nothing is left to split. */
  lemma NothingToSplitNet()
    ensures SalaryTotal(DefaultConfig, false) == 7000.0 && DebtDue(DefaultConfig, 10000.0) == 1000.0
    ensures NetDistributable(DefaultConfig, 10000.0, 10000.0, MidMonthStart, MidMonthEnd, false) == 0.0
  {
    MonthEndWeekExample();
    QuantOfCents(10000.0);
    QuantOfCents(7000.0);
    QuantOfCents(1000.0);
    QuantOfCents(0.0);
  }

  /** Each member has drawn 100 in that week: everyone is over-advanced and gets 0, there is
      nobody to redistribute to, and only Felix's salary of 7000 is paid. */
  lemma {:induction false} NothingToSplitExample()
    ensures var r := Settle(DefaultConfig, 10000.0, 10000.0, [Entry("Bett", 100.0), Entry("Felix", 100.0), Entry("Willy", 100.0)], MidMonthStart, MidMonthEnd, false);
      r.netDistributable == 0.0 &&
      r.grossShares == [Entry("Bett", 0.0), Entry("Felix", 0.0), Entry("Willy", 0.0)] &&
      r.netPayouts == [Entry("Bett", 0.0), Entry("Felix", 7000.0), Entry("Willy", 0.0)]
    ensures TotalOverAdvance(DefaultConfig, 0.0, [Entry("Bett", 100.0), Entry("Felix", 100.0), Entry("Willy", 100.0)], 3) == 300.0
  {
    DefaultConfigValid();
    NothingToSplitNet();
    var cfg, adv, net := DefaultConfig, [Entry("Bett", 100.0), Entry("Felix", 100.0), Entry("Willy", 100.0)], 0.0;
    QuantOfCents(100.0);
    QuantOfCents(0.0);
    assert Get(adv, "Bett") == 100.0 && Get(adv, "Felix") == 100.0 && Get(adv, "Willy") == 100.0;
    assert AdvanceAt(cfg, adv, 0) == 100.0 && AdvanceAt(cfg, adv, 1) == 100.0 && AdvanceAt(cfg, adv, 2) == 100.0;
    assert GrossAt(cfg, net, 0) == 0.0 && GrossAt(cfg, net, 1) == 0.0 && GrossAt(cfg, net, 2) == 0.0;
    assert OverAdvancedAt(cfg, net, adv, 0) && OverAdvancedAt(cfg, net, adv, 1) && OverAdvancedAt(cfg, net, adv, 2);
    assert TotalOverAdvance(cfg, net, adv, 3) == 300.0;
    assert FinalAt(cfg, net, adv, false, 0) == 0.0;
    assert FinalAt(cfg, net, adv, false, 1) == 7000.0;
    assert FinalAt(cfg, net, adv, false, 2) == 0.0;
  }
}
