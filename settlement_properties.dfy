/** What the settlement calculator's result means: the net distributable amount, the month-end
    deductions, conservation of the shares and of the redistributed excess, the salary top-up,
    non-negative payouts, and the worked scenarios of the application. */
module SettlementProperties {
  import opened Money
  import opened Calendar
  import opened Tables
  import opened Settlement

  // ---- Net distributable ----

  /** With rent and milk bill in whole cents, the net distributable amount is exactly income less
      all deductions, floored at zero: it is zero exactly when the deductions use up the income. */
  lemma {:induction false} NetDistributableExact(cfg: Config, totalIncome: real, totalExpenses: real,
                                                 weekStart: Date, weekEnd: Date, substitute: bool)
    requires Valid(weekStart) && IsCents(cfg.rent) && IsCents(cfg.milkBill)
    ensures NetDistributable(cfg, totalIncome, totalExpenses, weekStart, weekEnd, substitute)
      == Max(Quant(totalIncome) - TotalDeductions(cfg, totalIncome, totalExpenses, weekStart, weekEnd, substitute), 0.0)
    ensures NetDistributable(cfg, totalIncome, totalExpenses, weekStart, weekEnd, substitute) == 0.0
      <==> Quant(totalIncome) <= TotalDeductions(cfg, totalIncome, totalExpenses, weekStart, weekEnd, substitute)
  {
    var salary := SalaryTotal(cfg, substitute);
    var debt := DebtDue(cfg, totalIncome);
    var rent := RentDue(cfg, weekStart, weekEnd);
    var milk := MilkDue(cfg, weekStart, weekEnd);
    assert IsCents(0.0) by { assert (0.0 * 100.0).Floor == 0; }
    assert IsCents(salary) && IsCents(rent) && IsCents(milk);
    CentsAdd(Quant(totalExpenses), salary);
    CentsAdd(Quant(totalExpenses) + salary, debt);
    CentsAdd(Quant(totalExpenses) + salary + debt, rent);
    CentsAdd(Quant(totalExpenses) + salary + debt + rent, milk);
    var deductions := TotalDeductions(cfg, totalIncome, totalExpenses, weekStart, weekEnd, substitute);
    CentsAdd(Quant(totalIncome), deductions);
    QuantOfCents(Max(Quant(totalIncome) - deductions, 0.0));
  }

  /** Rent and milk are charged exactly in the week (Monday to Sunday, as computed from any of its
      days) whose following Monday falls in another month. */
  lemma {:induction false} RentAndMilkAtMonthEnd(cfg: Config, d: Date)
    requires Valid(d)
    ensures var w := WeekStartEnd(d);
      RentDue(cfg, w.0, w.1) == (if AddDays(w.0, 7).month != w.0.month then cfg.rent else 0.0) &&
      MilkDue(cfg, w.0, w.1) == (if AddDays(w.0, 7).month != w.0.month then cfg.milkBill else 0.0)
  {
    LastWeekMeansNextMondayInNewMonth(d);
  }

  // ---- Gross shares ----

  lemma {:induction false} GrossPrefix(cfg: Config, net: real, n: int)
    requires 0 <= n <= |cfg.shares|
    ensures var g := Total(GrossTable(cfg, net)[..n]) - Times(net, Total(cfg.shares[..n]));
      -(n as real) * 0.005 <= g <= (n as real) * 0.005
    decreases n
  {
    if n > 0 {
      var t := GrossTable(cfg, net);
      GrossPrefix(cfg, net, n - 1);
      TotalPrefix(t, n - 1);
      TotalPrefix(cfg.shares, n - 1);
      var r := cfg.shares[n - 1].value;
      TimesAdd(net, Total(cfg.shares[..n - 1]), r);
      QuantClose(Times(net, r));
    }
  }

  /** The gross shares add up to the net distributable amount times the sum of the ratios, up to
      half a cent of rounding per member; with the default ratios (summing to 1) that is the whole
      net distributable amount. */
  lemma {:induction false} GrossSharesSumToNet(cfg: Config, net: real)
    ensures -(|cfg.shares| as real) * 0.005 <= Total(GrossTable(cfg, net)) - Times(net, Total(cfg.shares))
                                            <= (|cfg.shares| as real) * 0.005
  {
    GrossPrefix(cfg, net, |cfg.shares|);
    assert GrossTable(cfg, net)[..|cfg.shares|] == GrossTable(cfg, net);
    assert cfg.shares[..|cfg.shares|] == cfg.shares;
  }

  // ---- First pass ----

  lemma {:induction false} InitialPrefix(cfg: Config, net: real, adv: Table, n: int)
    requires 0 <= n <= |cfg.shares|
    ensures Total(InitialTable(cfg, net, adv)[..n])
      == Total(GrossTable(cfg, net)[..n]) - Total(AdvanceTable(cfg, adv)[..n]) + TotalOverAdvance(cfg, net, adv, n)
    decreases n
  {
    if n > 0 {
      InitialPrefix(cfg, net, adv, n - 1);
      TotalPrefix(InitialTable(cfg, net, adv), n - 1);
      TotalPrefix(GrossTable(cfg, net), n - 1);
      TotalPrefix(AdvanceTable(cfg, adv), n - 1);
    }
  }

  /** After the first pass every member's provisional payout is non-negative, the over-advanced
      ones get exactly 0, and the payouts add up to the gross shares less the advances plus the
      total over-advance that was cut off. */
  lemma {:induction false} FirstPassAccounting(cfg: Config, net: real, adv: Table)
    ensures forall i :: 0 <= i < |cfg.shares| ==> InitialTable(cfg, net, adv)[i].value >= 0.0
    ensures forall i :: 0 <= i < |cfg.shares| && OverAdvancedAt(cfg, net, adv, i) ==>
      InitialTable(cfg, net, adv)[i].value == 0.0 && ExcessAt(cfg, net, adv, i) > 0.0
    ensures TotalOverAdvance(cfg, net, adv, |cfg.shares|) >= 0.0
    ensures Total(InitialTable(cfg, net, adv))
      == Total(GrossTable(cfg, net)) - Total(AdvanceTable(cfg, adv)) + TotalOverAdvance(cfg, net, adv, |cfg.shares|)
  {
    var n := |cfg.shares|;
    InitialPrefix(cfg, net, adv, n);
    assert InitialTable(cfg, net, adv)[..n] == InitialTable(cfg, net, adv);
    assert GrossTable(cfg, net)[..n] == GrossTable(cfg, net);
    assert AdvanceTable(cfg, adv)[..n] == AdvanceTable(cfg, adv);
    TotalOverAdvanceNonNegative(cfg, net, adv, n);
  }

  lemma {:induction false} TotalOverAdvanceNonNegative(cfg: Config, net: real, adv: Table, n: int)
    requires 0 <= n <= |cfg.shares|
    ensures TotalOverAdvance(cfg, net, adv, n) >= 0.0
    ensures TotalOverAdvance(cfg, net, adv, n) == 0.0 <==> forall k :: 0 <= k < n ==> !OverAdvancedAt(cfg, net, adv, k)
    decreases n
  {
    if n > 0 {
      TotalOverAdvanceNonNegative(cfg, net, adv, n - 1);
    }
  }

  // ---- Redistribution ----

  /** A member's share of the excess is their fraction of the ratios of the members not
      over-advanced, applied to the total over-advance, then quantised. */
  lemma ExcessShareClose(cfg: Config, net: real, adv: Table, i: int)
    requires ValidConfig(cfg) && 0 <= i < |cfg.shares| && !OverAdvancedAt(cfg, net, adv, i)
    ensures NormalShareTotal(cfg, net, adv, |cfg.shares|) > 0.0
    ensures var x := Times(TotalOverAdvance(cfg, net, adv, |cfg.shares|),
                           Fraction(cfg.shares[i].value, NormalShareTotal(cfg, net, adv, |cfg.shares|)));
      x >= 0.0 && x - 0.005 < ExcessShareAt(cfg, net, adv, i) <= x + 0.005
  {
    var n := |cfg.shares|;
    NormalShareTotalCovers(cfg, net, adv, i, n);
    TotalOverAdvanceNonNegative(cfg, net, adv, n);
    var t, r, v := TotalOverAdvance(cfg, net, adv, n), cfg.shares[i].value, NormalShareTotal(cfg, net, adv, n);
    FractionFacts(r, v);
    TimesNonNegative(t, Fraction(r, v));
  }

  /** One member's contribution to the redistribution: what they gain over the first pass, and
      the exact amount that stands for, as a fraction of the excess. */
  lemma RedistributionStep(cfg: Config, net: real, adv: Table, k: int)
    requires ValidConfig(cfg) && 0 <= k < |cfg.shares|
    requires TotalOverAdvance(cfg, net, adv, |cfg.shares|) > 0.0
    requires NormalShareTotal(cfg, net, adv, |cfg.shares|) > 0.0
    ensures var t, v := TotalOverAdvance(cfg, net, adv, |cfg.shares|), NormalShareTotal(cfg, net, adv, |cfg.shares|);
            var gain := RedistributedTable(cfg, net, adv)[k].value - InitialTable(cfg, net, adv)[k].value;
            var exact := Times(t, Fraction(NormalShareTotal(cfg, net, adv, k + 1), v))
                       - Times(t, Fraction(NormalShareTotal(cfg, net, adv, k), v));
      -0.005 <= gain - exact <= 0.005
  {
    var t, v := TotalOverAdvance(cfg, net, adv, |cfg.shares|), NormalShareTotal(cfg, net, adv, |cfg.shares|);
    var before := NormalShareTotal(cfg, net, adv, k);
    var gain := RedistributedTable(cfg, net, adv)[k].value - InitialTable(cfg, net, adv)[k].value;
    if !OverAdvancedAt(cfg, net, adv, k) {
      var r := cfg.shares[k].value;
      assert NormalShareTotal(cfg, net, adv, k + 1) == before + r;
      assert -0.005 <= gain - Times(t, Fraction(r, v)) <= 0.005 by {
        ExcessShareClose(cfg, net, adv, k);
      }
      TimesFractionStep(t, before, r, v);
    } else {
      assert NormalShareTotal(cfg, net, adv, k + 1) == before;
      assert gain == 0.0;
    }
  }

  lemma {:induction false} RedistributionPrefix(cfg: Config, net: real, adv: Table, n: int)
    requires ValidConfig(cfg) && 0 <= n <= |cfg.shares|
    requires TotalOverAdvance(cfg, net, adv, |cfg.shares|) > 0.0
    requires NormalShareTotal(cfg, net, adv, |cfg.shares|) > 0.0
    ensures var added := Total(RedistributedTable(cfg, net, adv)[..n]) - Total(InitialTable(cfg, net, adv)[..n]);
            var exact := Times(TotalOverAdvance(cfg, net, adv, |cfg.shares|),
                               Fraction(NormalShareTotal(cfg, net, adv, n), NormalShareTotal(cfg, net, adv, |cfg.shares|)));
      -(n as real) * 0.005 <= added - exact <= (n as real) * 0.005
    decreases n
  {
    var t, v := TotalOverAdvance(cfg, net, adv, |cfg.shares|), NormalShareTotal(cfg, net, adv, |cfg.shares|);
    if n == 0 {
      FractionFacts(0.0, v);
      assert Times(t, 0.0) == 0.0;
    } else {
      RedistributionPrefix(cfg, net, adv, n - 1);
      TotalPrefix(RedistributedTable(cfg, net, adv), n - 1);
      TotalPrefix(InitialTable(cfg, net, adv), n - 1);
      RedistributionStep(cfg, net, adv, n - 1);
    }
  }

  /** RedistributionPrefix for the whole table, where the fraction is all of the excess. */
  lemma {:induction false} RedistributionWhole(cfg: Config, net: real, adv: Table)
    requires ValidConfig(cfg)
    requires TotalOverAdvance(cfg, net, adv, |cfg.shares|) > 0.0
    requires NormalShareTotal(cfg, net, adv, |cfg.shares|) > 0.0
    ensures var n := |cfg.shares|;
            var added := Total(RedistributedTable(cfg, net, adv)) - Total(InitialTable(cfg, net, adv));
      -(n as real) * 0.005 <= added - TotalOverAdvance(cfg, net, adv, n) <= (n as real) * 0.005
  {
    var n := |cfg.shares|;
    var t, v := TotalOverAdvance(cfg, net, adv, n), NormalShareTotal(cfg, net, adv, n);
    RedistributionPrefix(cfg, net, adv, n);
    assert RedistributedTable(cfg, net, adv)[..n] == RedistributedTable(cfg, net, adv);
    assert InitialTable(cfg, net, adv)[..n] == InitialTable(cfg, net, adv);
    TimesWhole(t, v);
  }

  /** When some member took more than their gross share and at least one member did not, the
      excess is handed out to the others in proportion to their ratios: added up, what they
      receive on top of their provisional payouts is the total over-advance, up to half a cent of
      rounding per member. */
  lemma {:induction false} RedistributionConservation(cfg: Config, net: real, adv: Table, i: int)
    requires ValidConfig(cfg) && 0 <= i < |cfg.shares| && !OverAdvancedAt(cfg, net, adv, i)
    requires TotalOverAdvance(cfg, net, adv, |cfg.shares|) > 0.0
    ensures var added := Total(RedistributedTable(cfg, net, adv)) - Total(InitialTable(cfg, net, adv));
            var excess := TotalOverAdvance(cfg, net, adv, |cfg.shares|);
      -(|cfg.shares| as real) * 0.005 <= added - excess <= (|cfg.shares| as real) * 0.005
  {
    NormalShareTotalCovers(cfg, net, adv, i, |cfg.shares|);
    RedistributionWhole(cfg, net, adv);
  }

  /** When every member is over-advanced nobody is left to take the excess: all payouts before
      salary are 0. */
  lemma {:induction false} EveryoneOverAdvanced(cfg: Config, net: real, adv: Table)
    requires ValidConfig(cfg)
    requires forall i :: 0 <= i < |cfg.shares| ==> OverAdvancedAt(cfg, net, adv, i)
    ensures forall i :: 0 <= i < |cfg.shares| ==> RedistributedTable(cfg, net, adv)[i].value == 0.0
    ensures Total(RedistributedTable(cfg, net, adv)) == 0.0
  {
    ZeroTotal(RedistributedTable(cfg, net, adv));
  }

  lemma {:induction false} ZeroTotal(t: Table)
    requires forall i :: 0 <= i < |t| ==> t[i].value == 0.0
    ensures Total(t) == 0.0
    decreases |t|
  {
    if |t| > 0 {
      ZeroTotal(t[..|t| - 1]);
    }
  }

  /** Redistribution only adds: no member's payout goes below what the first pass gave, so no
      payout is ever negative (the salary being non-negative). */
  lemma {:induction false} PayoutsNonNegative(cfg: Config, net: real, adv: Table, substitute: bool)
    requires ValidConfig(cfg) && cfg.dailySalary >= 0.0
    ensures forall i :: 0 <= i < |cfg.shares| ==>
      RedistributedTable(cfg, net, adv)[i].value >= InitialTable(cfg, net, adv)[i].value >= 0.0
    ensures forall i :: 0 <= i < |cfg.shares| ==> PayoutTable(cfg, net, adv, substitute)[i].value >= 0.0
  {
    TimesNonNegative(cfg.dailySalary, WeekDays as real);
    assert SalaryTotal(cfg, substitute) >= 0.0;
    forall i | 0 <= i < |cfg.shares|
      ensures RedistributedAt(cfg, net, adv, i) >= InitialAt(cfg, net, adv, i) >= 0.0
    {
      if TotalOverAdvance(cfg, net, adv, |cfg.shares|) > 0.0 && !OverAdvancedAt(cfg, net, adv, i) {
        ExcessShareClose(cfg, net, adv, i);
      }
    }
  }

  // ---- Salary ----

  lemma {:induction false} SalaryPrefix(cfg: Config, net: real, adv: Table, substitute: bool, n: int)
    requires ValidConfig(cfg) && 0 <= n <= |cfg.shares|
    ensures Total(PayoutTable(cfg, net, adv, substitute)[..n])
      == Total(RedistributedTable(cfg, net, adv)[..n])
       + (if Has(cfg.shares[..n], cfg.salariedMember) then SalaryTotal(cfg, substitute) else 0.0)
    decreases n
  {
    if n > 0 {
      SalaryPrefix(cfg, net, adv, substitute, n - 1);
      TotalPrefix(PayoutTable(cfg, net, adv, substitute), n - 1);
      TotalPrefix(RedistributedTable(cfg, net, adv), n - 1);
      var p := cfg.shares[..n - 1];
      assert cfg.shares[..n] == p + [cfg.shares[n - 1]];
      HasAppend(p, cfg.shares[n - 1], cfg.salariedMember);
      if cfg.shares[n - 1].name == cfg.salariedMember {
        assert forall j :: 0 <= j < |p| ==> p[j].name != cfg.salariedMember;
      }
    }
  }

  /** The salary is paid once, to the salaried member, and only when no substitute worked: the
      payouts add up to the redistributed shares plus the salary if that member is in the share
      table; every other member's payout is their redistributed share. */
  lemma {:induction false} SalaryPaidOnce(cfg: Config, net: real, adv: Table, substitute: bool)
    requires ValidConfig(cfg)
    ensures Total(PayoutTable(cfg, net, adv, substitute))
      == Total(RedistributedTable(cfg, net, adv))
       + (if Has(cfg.shares, cfg.salariedMember) && !substitute then Quant(Times(cfg.dailySalary, WeekDays as real)) else 0.0)
    ensures forall i :: 0 <= i < |cfg.shares| ==>
      PayoutTable(cfg, net, adv, substitute)[i].value - RedistributedTable(cfg, net, adv)[i].value
        == if cfg.shares[i].name == cfg.salariedMember && !substitute then SalaryTotal(cfg, substitute) else 0.0
  {
    var n := |cfg.shares|;
    SalaryPrefix(cfg, net, adv, substitute, n);
    assert cfg.shares[..n] == cfg.shares;
    assert PayoutTable(cfg, net, adv, substitute)[..n] == PayoutTable(cfg, net, adv, substitute);
    assert RedistributedTable(cfg, net, adv)[..n] == RedistributedTable(cfg, net, adv);
  }

  // ---- Cash accounting ----

  /** What leaves the till for the members (the advances already taken plus this week's payouts)
      against the gross shares: with no over-advance it is exactly the gross shares plus the
      salary; with an over-advance redistributed to the others, the excess is counted twice —
      once as the advance the over-advanced member kept, once as the amount handed out on top —
      up to rounding. */
  lemma {:induction false} CashOutAccounting(cfg: Config, net: real, adv: Table, substitute: bool)
    requires ValidConfig(cfg)
    ensures var salary := if Has(cfg.shares, cfg.salariedMember) then SalaryTotal(cfg, substitute) else 0.0;
            var cashOut := Total(PayoutTable(cfg, net, adv, substitute)) + Total(AdvanceTable(cfg, adv));
            var excess := TotalOverAdvance(cfg, net, adv, |cfg.shares|);
      (excess == 0.0 ==> cashOut == Total(GrossTable(cfg, net)) + salary) &&
      ((exists i :: 0 <= i < |cfg.shares| && !OverAdvancedAt(cfg, net, adv, i)) && excess > 0.0 ==>
        -(|cfg.shares| as real) * 0.005 <= cashOut - (Total(GrossTable(cfg, net)) + salary + 2.0 * excess)
                                         <= (|cfg.shares| as real) * 0.005)
  {
    FirstPassAccounting(cfg, net, adv);
    SalaryPaidOnce(cfg, net, adv, substitute);
    var excess := TotalOverAdvance(cfg, net, adv, |cfg.shares|);
    if excess == 0.0 {
      NoExcessKeepsInitial(cfg, net, adv);
    }
    if excess > 0.0 && exists i :: 0 <= i < |cfg.shares| && !OverAdvancedAt(cfg, net, adv, i) {
      var i :| 0 <= i < |cfg.shares| && !OverAdvancedAt(cfg, net, adv, i);
      RedistributionConservation(cfg, net, adv, i);
    }
  }
}
