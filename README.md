# Weekly settlement of a shared business (Shr), modelled in Dafny

Shr is a small Flask application. A few partners use it to settle a shared business week by week. The cash handled in a week is its income. After paying expenses, these deductions come off the income:

- the salaried member's weekly salary;
- 10 % of the income, towards a common debt;
- the month's rent and milk bill, in the week that holds the month's last day.

The rest is split by fixed share ratios. Each member's cash advances taken during the week are subtracted from their share. A member whose advances exceed their share gets nothing. The excess is spread over the other members in proportion to their ratios. The salaried member then gets the salary on top, unless a substitute worked that week.

Around this calculator sit the handlers that change stored state:

- the debt ledger, updated when a settlement is created and reversed when it is deleted;
- the members' outstanding advances;
- marking a payout received;
- the administrator completing a settlement, which marks every item paid;
- editing users and toggling whether they are active;
- sending a notification to users.

This project models that core and proves what it computes.

- `money.dfy` (module `Money`): amounts are exact rationals (`real`). `Quant` is Python's `Decimal.quantize(Decimal("0.01"), ROUND_HALF_UP)`.
- `calendar.dfy` (module `Calendar`): the proleptic Gregorian dates of Python's `datetime.date`, with ordinals, weekdays, the Monday-to-Sunday week of a date and the month-end test.
- `tables.dfy` (module `Tables`): the insertion-ordered dictionaries keyed by member name, as a `seq` of distinct `(name, value)` entries.
- `settlement.dfy` (module `Settlement`): `calculate_settlement_values`, written as methods with the same loops. The methods are proved equal to per-member stage functions and to the whole-result function `Settle`. The file also holds the amount checks of `validate_settlement_data`.
- `settlement_properties.dfy` and `settlement_examples.dfy`: what the calculator guarantees, and worked weeks with the shipped configuration.
- `models.dfy` (module `Models`): the stored records. These are advance rows, settlements with their items, the debt ledger, the outstanding advances and the users. A record the handlers update in place is a class. The settlement, the debt ledger and the advance book expose their fields as one value, `State()`. The user directory has the single field `users`, a map from id to user row, which the handlers transform directly.
- `advances.dfy` (module `Advances`): the per-member fold in `get_weekly_advances`.
- `routes.dfy` and `routes_properties.dfy`: the handlers of `app/routes.py` and their properties.
- `admin_routes.dfy` and `admin_properties.dfy`: the handlers of `app/admin_routes.py` and their properties.

Each state-changing handler is a method whose `ensures` ties the new state to a pure transition of the old state (for example `PayDebt`, `ReverseDebt`, `AddAdvanceTo`, `CompleteState`, `UpdateIn`, `ToggleIn`). The lemmas are proved about those transitions.

The configuration in `config.py:18-26` is passed as a `Config` value. `Settlement.DefaultConfig` holds the shipped values: shares Bett 0.775, Felix 0.086, Willy 0.139; a daily salary of 1000.00; rent 12000.00; milk 1500.00; debt 10 %. The salaried member is a field of `Config` with the value "Felix", because the source compares the name literally. Inputs the handlers take from the outside world are parameters: the request body, today's date, the clock, and the current user's id and role.

Behaviour of the code that the model keeps as written:

- If the net distributable amount is 0, members without advances still count as not over-advanced, so they receive the redistributed excess of the others.
- The redistribution adds the excess on top of the first-pass payouts. Measured against the gross shares, the excess therefore leaves the till twice: once as the advance already taken, once as the extra payout (`SettlementProperties.CashOutAccounting`).
- With debt still outstanding, a zero deduction reports "New debt added: 0" (`RoutesProperties.StatusClassification`).
- Deleting a settlement does not undo its debt update when that update booked new debt or paid the debt off. With new debt, the reversal adds the deduction a second time (`RoutesProperties.ReversalAfterNewDebt`, `RoutesProperties.CreateThenDeleteExample`).
- Marking a payout received does not set the paid flag, so it can be repeated (`RoutesProperties.MarkReceivedRepeatable`).
- A user id listed twice in a notification is notified twice (`AdminProperties.DuplicateIdNotifiedTwice`).

## Model

| member | source | states |
|---|---|---|
| Money.Quant | app/utils.py:10-12 | The result has at most two decimals. It lies within half a cent of the input, on the rounding side given by the sign. |
| Money.QuantUnique | app/utils.py:10-12 | Quant gives the one amount in cents inside the rounding window, so the window decides the result. |
| Money.QuantOfCents | app/utils.py:10-12 | An amount already in cents is unchanged. |
| Money.QuantIdempotent | app/utils.py:10-12 | Quantising twice equals quantising once. |
| Money.QuantTieAwayFromZero | app/utils.py:10-12 | An exact half cent rounds away from zero, for positive and for negative amounts. |
| Money.QuantNegate | app/utils.py:10-12 | Rounding is symmetric: Quant(-v) == -Quant(v). |
| Money.QuantClose | app/utils.py:10-12 | Quant moves an amount by at most half a cent either way. |
| Money.CentsAdd | app/utils.py:72 | Sums and differences of amounts in cents are in cents, so the net before flooring needs no rounding. |
| Money.CentsCloseAreEqual | app/utils.py:10-12 | Two amounts in cents less than a cent apart are equal. |
| Money.Max | app/utils.py:73 | max(net, 0) is at least both arguments and is one of them. |
| Calendar.DaysInMonth | app/utils.py:23-24 | calendar.monthrange's day count is between 28 and 31, and is 29 exactly for February of a leap year. |
| Calendar.Weekday | app/utils.py:16 | date.weekday() lies in 0..6. |
| Calendar.WeekdayExamples | app/utils.py:16 | Monday is 0 and Sunday is 6: 0001-01-01 and 2024-01-29 give 0, and 2024-02-04 gives 6. |
| Calendar.NextDayOrdinal | app/utils.py:17-18 | Adding one day raises the ordinal by one. |
| Calendar.AddDaysOrdinal | app/utils.py:18 | Adding k days (timedelta) raises the ordinal by k. |
| Calendar.SubDaysOrdinal | app/utils.py:17 | Subtracting k days lowers the ordinal by k. |
| Calendar.WeekStartEnd | app/utils.py:14-19 | The week of d starts on a Monday and ends on the Sunday six days later, and the ordinal of d lies between the two. |
| Calendar.WeekHoldsDate | app/utils.py:14-19 | In date order, the Monday is not after d, d is not after the Sunday, and the Sunday is the Monday plus six days. |
| Calendar.DateLeIsOrdinalOrder | app/utils.py:25 | The field-by-field date comparison the week test uses agrees with the day-count ordering. |
| Calendar.LastWeekMeansNextMondayInNewMonth | app/utils.py:21-25 | A Monday-to-Sunday week holds the last day of its Monday's month exactly when the next Monday is in another month. |
| Calendar.AddDaysLeavesMonth | app/utils.py:23-25 | Adding up to 28 days that pass the month's last day lands in another month. |
| Calendar.MonthEndWeekExample | app/utils.py:14-25 | 2024-01-31 lies in the week 2024-01-29 to 2024-02-04, which is the last week of January. The week of 2024-01-08 is not the last week of its month. |
| Tables.IndexOf | app/utils.py:82 | The position of a key is its first occurrence, and it is -1 exactly when the key is absent. |
| Tables.Get | app/utils.py:82 | dict.get(name, 0): the stored value for a present key and 0 for an absent one. |
| Tables.GetAt | app/utils.py:82 | With distinct keys, looking up the key at position i gives the value at position i. |
| Tables.AddToFacts | app/utils.py:31-33 | d[name] += x keeps keys distinct and adds name to the keys. It adds x to name's value and nothing to the others, and raises the total by x. |
| Advances.RecordsOfWeek | app/utils.py:30 | The rows kept are exactly the stored rows filed under that week: each such row occurs as often as it is stored, and no other row occurs. |
| Advances.AccumulateStep | app/utils.py:32-33 | Adding one more row's amount to its member keeps the totals right. |
| Advances.WeeklyTotalsAccumulate | app/utils.py:31-34 | There is one key per member with rows, holding the sum of that member's amounts. The sum over all keys is the sum over all rows. |
| Advances.GetWeeklyAdvances | app/utils.py:27-34 | The loop's dictionary is the fold of the week's rows, and it holds the per-member sums above. |
| Settlement.FirstPass | app/utils.py:75-91 | The first-pass loop builds the initial payouts and records exactly the over-advanced members. It sums their excess into total_over_advance. |
| Settlement.ValidShareTotal | app/utils.py:95-99 | valid_share_total is the sum of the ratios of the members not over-advanced. |
| Settlement.Redistribute | app/utils.py:101-106 | The in-place loop gives each member not over-advanced their quantised share of the excess on top, and leaves the others as they were. |
| Settlement.ApplySalary | app/utils.py:108-117 | The final payouts add the salary to the salaried member's entry when no substitute worked, and copy every other entry. |
| Settlement.GrossShares | app/utils.py:119-122 | gross_shares holds quant(net_distributable × ratio) for every share-table key, in table order. |
| Settlement.CalculateSettlementValues | app/utils.py:38-138 | The whole calculation equals Settle. Settle gives quantised income and expenses, salary (0 with a substitute), debt = quant(income × percent), rent and milk only in a month-end week, the total advances, the floored net, the gross shares and the final payouts. |
| Settlement.NormalShareTotalCovers | app/utils.py:95-104 | A member not over-advanced contributes a positive ratio, so the divisor of the redistribution is positive. |
| Settlement.NoExcessKeepsInitial | app/utils.py:94 | With no over-advance, the redistribution leaves every payout as the first pass set it. |
| Settlement.DebtDueNonNegative | app/utils.py:53-61 | The debt deduction is not negative when the income and the debt percentage are not. |
| Settlement.ValidateSettlementData | app/utils.py:257-268 | Each of the three messages is reported exactly when its condition holds, independently of the others. No other message occurs, none occurs twice, and they come in the order of the checks. |
| SettlementProperties.NetDistributableExact | app/utils.py:53-73 | With rent and milk in cents, the net distributable is exactly max(income - deductions, 0). It is zero exactly when the deductions use up the income. |
| SettlementProperties.RentAndMilkAtMonthEnd | app/utils.py:63-67 | Rent and milk are charged, at exactly the configured amounts, in the week whose next Monday falls in another month, and are 0 otherwise. |
| SettlementProperties.GrossSharesSumToNet | app/utils.py:80-81 | The gross shares add up to net × (sum of the ratios), within half a cent per member. |
| SettlementProperties.FirstPassAccounting | app/utils.py:80-91 | Every first-pass payout is non-negative, and each over-advanced member has 0 with a positive excess. The payouts total the gross shares less the advances plus the total over-advance. |
| SettlementProperties.TotalOverAdvanceNonNegative | app/utils.py:85-88 | total_over_advance is never negative, and it is zero exactly when no member is over-advanced. |
| SettlementProperties.ExcessShareClose | app/utils.py:104-105 | A member's additional share is non-negative and within half a cent of total_over_advance × ratio / valid_share_total. |
| SettlementProperties.RedistributionStep | app/utils.py:102-106 | What one member gains over the first pass is within half a cent of their exact fraction of the excess. |
| SettlementProperties.RedistributionPrefix | app/utils.py:102-106 | Over the first n members, the amount added is within n half-cents of the excess times their share of the divisor. |
| SettlementProperties.RedistributionConservation | app/utils.py:93-106 | When some member is not over-advanced, the redistribution hands out the whole excess, up to half a cent per member. |
| SettlementProperties.EveryoneOverAdvanced | app/utils.py:94-106 | When every member is over-advanced, every payout stays 0. |
| SettlementProperties.PayoutsNonNegative | app/utils.py:89-117 | Redistribution never lowers a payout, and no final payout is negative. |
| SettlementProperties.SalaryPaidOnce | app/utils.py:110-117 | Final and redistributed payouts differ only at the salaried member, by the salary, when no substitute worked. The totals differ by the salary when that member is in the table. |
| SettlementProperties.CashOutAccounting | app/utils.py:75-117 | With no excess, payouts plus advances equal the gross shares plus salary. With an excess redistributed, they exceed that by twice the excess, up to rounding. |
| SettlementExamples.DefaultConfigValid | config.py:18-22 | The shipped share table has distinct names and positive ratios that sum to 1. |
| SettlementExamples.MidMonthNet | app/utils.py:53-73 | Income 100000 with expenses 20000 in a mid-month week leaves 63000, after salary 7000 and debt 10000 and with no rent or milk. |
| SettlementExamples.GrossOf63000 | app/utils.py:119-122 | 63000 splits into 48825, 5418 and 8757. |
| SettlementExamples.ExampleScenario | app/utils.py:38-138 | With Bett's advance of 5000, payouts are 43825, 12418 (with salary) and 8757. |
| SettlementExamples.OverAdvanceExample | app/utils.py:80-106 | With Bett's advance of 60000, Bett gets 0. The excess of 11175 goes to Felix and Willy, giving 16689.33 and 15660.67. |
| SettlementExamples.SubstituteExample | app/utils.py:56-59 | With a substitute, no salary is deducted or paid, and 70000 is split. |
| SettlementExamples.MonthEndExample | app/utils.py:63-67 | In the week 2024-01-29 to 2024-02-04, rent 12000 and milk 1500 come off, leaving 49500. |
| SettlementExamples.NothingToSplitNet | app/utils.py:53-73 | Income 10000 and expenses 10000 with the 7000 salary and 1000 debt leave nothing to split. |
| SettlementExamples.NothingToSplitExample | app/utils.py:76-123 | With nothing to split and 100 drawn by each member, everyone is over-advanced and gets 0, the excess of 300 goes to nobody, and Felix receives only the 7000 salary. |
| Routes.ApplyDebtPayment | app/routes.py:162-179 | The ledger's new state and the actual payment are those of PayDebt on the old ledger. |
| Routes.ReverseDebtPayment | app/routes.py:569-573 | The ledger's new state is ReverseDebt of the old one. |
| Routes.AddAdvance | app/routes.py:51-91 | The add succeeds exactly for a positive amount and a non-empty name. The book becomes AddAdvanceTo of the old book: the row is filed under today's week and the member's outstanding advance rises by the amount. |
| Routes.DeleteAdvance | app/routes.py:93-115 | An unknown advance is a 404 and changes nothing. Otherwise the book becomes DeleteAdvanceFrom: that row goes and its amount comes off its member. |
| Routes.BuildItems | app/routes.py:183-193 | One item per key of gross_shares, with the gross share, the quantised advance and the net payout. |
| Routes.CreateSettlement | app/routes.py:119-217 | The settlement uses the week of the reference date and that week's advances. Its values are Settle's and its items are ItemsOf, all unpaid. The ledger, created empty if missing, takes PayDebt, and the status is the one the ledger shows afterwards. With a non-negative income and debt percentage, a ledger meeting DebtInvariant still meets it. |
| Routes.MarkReceived | app/routes.py:219-239 | The outcome and new state are MarkReceivedIn of the old state. |
| Routes.DeleteSettlement | app/routes.py:545-600 | A non-admin, an unknown id and a completed settlement are each refused, exactly in those cases. Otherwise the settlement is removed and a positive debt deduction is put back on the ledger. |
| RoutesProperties.PayDebtCases | app/routes.py:164-179 | The branches of the ledger update, spelled out against the ledger before it; what they mean is stated by PayDebtKeepsInvariant and StatusClassification. There are three cases. A payoff sets remaining to 0 and pays the old remaining. A partial payment lowers remaining by the payment. With no debt, both totals grow by the payment and nothing is paid. The total is kept in the first two cases. |
| RoutesProperties.PayDebtKeepsInvariant | app/routes.py:162-179 | A non-negative deduction keeps 0 ≤ remaining ≤ total. The amount paid is at most the deduction and at most the debt owed. The amount repaid so far grows by exactly the amount paid. |
| RoutesProperties.StatusClassification | app/routes.py:196-201 | Stated against the ledger before the update. "Fully paid off" exactly when the deduction covers the outstanding debt, or when nothing is outstanding, the deduction is 0 and debt was incurred before. "Payment" (of the deduction) exactly when the deduction is positive and below the outstanding debt. Otherwise "new debt" of the deduction, which includes a zero deduction against outstanding debt. |
| RoutesProperties.SettlementKeepsDebtInvariant | app/routes.py:131-179 | A settlement with a non-negative income (and debt percentage) keeps 0 ≤ remaining ≤ total. |
| RoutesProperties.NegativeIncomeBreaksInvariant | app/routes.py:131-179 | An income of -1000 gives a deduction of -100, which takes the ledger (100, 50) to (100, 150) and reports new debt of -100: remaining exceeds total. |
| RoutesProperties.ReverseDebtFacts | app/routes.py:569-573 | A positive deduction is added to remaining, and total is raised to remaining if exceeded, so remaining ≤ total afterwards. A non-positive deduction changes nothing. |
| RoutesProperties.ReversalUndoesPartialPayment | app/routes.py:171-174 | Deleting a settlement whose deduction partly paid the debt restores the ledger. |
| RoutesProperties.ReversalAfterPayoff | app/routes.py:166-169 | After a payoff, deletion puts back the whole deduction, so remaining can exceed what it was. |
| RoutesProperties.ReversalAfterNewDebt | app/routes.py:175-179 | After new debt was booked, deletion adds the deduction again instead of removing it. |
| RoutesProperties.CreateThenDeleteExample | app/routes.py:162-201 | From an empty ledger, a 10000 deduction becomes new debt, and deleting the settlement leaves 20000 owed. |
| RoutesProperties.AddAdvanceEffect | app/routes.py:62-77 | An accepted advance appends exactly one row and raises only that member's outstanding advance. A refused one changes nothing. |
| RoutesProperties.DeleteAdvanceEffect | app/routes.py:97-112 | Deletion removes exactly that row from the multiset of rows and lowers only its member's outstanding advance. |
| RoutesProperties.AddThenDeleteRestores | app/routes.py:62-112 | Deleting the advance just added restores both rows and balances. |
| RoutesProperties.ItemsMatchSettlement | app/routes.py:183-193 | A new settlement has one unpaid item per share-table member, in table order, each carrying that member's final payout. |
| RoutesProperties.MarkReceivedGuard | app/routes.py:224-225 | Marking succeeds exactly for an existing unpaid item with a positive payout, and then changes only that item's received time. |
| RoutesProperties.MarkReceivedRepeatable | app/routes.py:224 | A successful mark can be repeated, and it only moves the received time. |
| AdminRoutes.CompleteTransaction | app/admin_routes.py:54-119 | An unknown id gets the handler's error reply (the lookup fails inside its error guard) and an already completed settlement is reported, each exactly in its case. Otherwise the settlement becomes CompleteState, and other settlements are untouched. |
| AdminRoutes.UpdateUser | app/admin_routes.py:181-220 | The outcome and the new directory are UpdateIn of the old directory. |
| AdminRoutes.ToggleUser | app/admin_routes.py:222-249 | The outcome and the new directory are ToggleIn of the old directory. |
| AdminRoutes.ActiveUserIds | app/admin_routes.py:268-269 | Each active user is listed once: the list has as many entries as there are active users, and holds exactly them. |
| AdminRoutes.ListedActive | app/admin_routes.py:270-275 | The listed ids that are active users, in the order listed: each occurs as often as it is listed, no other id occurs, and the length is ListedCount. |
| AdminRoutes.ListedActiveIds | app/admin_routes.py:270-275 | The loop computes ListedActive: each active listed id occurs as often as it is listed, and no other id occurs. |
| AdminRoutes.UsersToNotify | app/admin_routes.py:266-275 | With target "all", exactly the active users, each once. Otherwise ListedActive of the ids: each active listed id as often as it is listed, and no other id. |
| AdminRoutes.SendNotification | app/admin_routes.py:251-321 | The outcome is NotifyOutcomeOf: a blank title or message is refused, and otherwise the number of notifications created is reported. |
| AdminProperties.CompletePaysEveryItem | app/admin_routes.py:61-73 | Completing an open settlement stamps it with the time and the administrator, and marks every item paid. Each item keeps its other fields and the number of items is unchanged. |
| AdminProperties.CompleteIdempotent | app/admin_routes.py:61-113 | Completing again, at any time and by anyone, changes nothing. |
| AdminProperties.CompletedItemsCannotBeReceived | app/admin_routes.py:71 | After completion, no item can be marked received. |
| AdminProperties.UpdateGuards | app/admin_routes.py:185-198 | The current user is refused, an unknown id is a 404, and an e-mail address taken by another user is refused, each exactly in its case. A refusal changes nothing. |
| AdminProperties.UpdateEffect | app/admin_routes.py:193-204 | A successful edit changes only that user and never the user name. The new role is the requested one if it is "admin" or "user", and the old role otherwise. An empty or absent e-mail keeps the old one. A given is_active value is always taken. |
| AdminProperties.UpdateKeepsInvariants | app/admin_routes.py:193-201 | Edits keep every role in the whitelist and every e-mail address unique. |
| AdminProperties.ToggleEffect | app/admin_routes.py:226-232 | The current user is refused and an unknown id is a 404. Otherwise only that user's active flag flips, and the reply carries the new value. |
| AdminProperties.ToggleTwiceRestores | app/admin_routes.py:232 | Toggling the same user twice restores the directory. |
| AdminProperties.ToggleChangesActiveUsers | app/admin_routes.py:232 | Toggling adds the user to, or removes them from, the active users, and changes no one else. |
| AdminProperties.StripEmptyIffBlank | app/admin_routes.py:257-263 | A text strips to empty exactly when every character is whitespace. |
| AdminProperties.StripFacts | app/admin_routes.py:257-258 | strip() returns a slice of the text. The slice neither starts nor ends with whitespace, and only whitespace is cut off. |
| AdminProperties.NotifyOutcomeCases | app/admin_routes.py:262-287 | The request is refused exactly when the title or the message is blank. Otherwise the count is the number of active users for "all", and at most the number of listed ids for a selection. |
| AdminProperties.ListedCountFacts | app/admin_routes.py:272-275 | The count for a selection is at most the number of ids, with equality exactly when every listed id is an active user. |
| AdminProperties.ListedDistinctCount | app/admin_routes.py:272-275 | With no id listed twice, the count is the number of distinct active users selected. |
| AdminProperties.DuplicateIdNotifiedTwice | app/admin_routes.py:272-287 | An active user listed twice gets two notifications. |

## Left out

- Flask routing, templates, flash messages, JSON parsing and the request's address. Handlers take their inputs as parameters and return outcome values instead of JSON replies and redirects.
- The database. Queries, sessions, commits, rollbacks and the exception paths that roll back are not modelled. `get_or_404` becomes a not-found outcome. Rows are objects passed in, or a map from id to object. An advance row is addressed by its position in the stored rows. A member is found by name as a map key.
- The Transaction log rows, Notification rows, e-mail sending and the `last_updated` stamp, all of which are side effects with no bearing on the amounts.
- The text of the status and reply messages. The debt status is a datatype carrying the amount.
- The clock and today's date are parameters. `complete_transaction` reads `utcnow()` once per item; the model uses one time reading for the settlement and all its items.
- Python's 28-digit `Decimal` context. Amounts are exact rationals, so the ratio division in the redistribution and the products such as net × ratio are exact rather than rounded to 28 significant digits. Very large amounts are out of scope: once a result needs more than 28 digits in total (an income around 10^26), `quantize` raises `InvalidOperation`, which the model does not reproduce.
- Decimal conversion of request values, including `int()` failures on notification ids, and truthiness. `is_active` is a bool, ids are integers, and an absent or false `member_name` is the empty string.
- The date limit `datetime.MAXYEAR`, and the fallback to today for an unparsable `ref_date`. Dates are taken as valid.
- The duplicate-week database check in `validate_settlement_data` (app/utils.py:270-278), and the display-only helpers of app/utils.py (charts, statistics, CSV export, currency formatting, debt progress).
- The `share_ratio` column of a settlement item, which stores the gross share. It is persistence only.
- The `admin_required` and `login_required` decorators. `DeleteSettlement` takes the role as a parameter, as the handler checks it itself.
- The handlers that write fields this model does not track through them: `api_update_debt` (app/routes.py:461-487) sets the remaining debt to any value, `api_update_advance` (app/routes.py:318-336) overwrites a member's outstanding advance, `api_update_member`, `api_update_profile`, the two mark-notification-read handlers, `api_delete_notification`, `api_bulk_delete_notifications` and `api_create_user`. Routes.DebtInvariant is therefore preserved by the modelled ledger transitions for a non-negative deduction only (PayDebtKeepsInvariant, SettlementKeepsDebtInvariant, ReverseDebtFacts), not across `api_update_debt`. The index and dashboard pages, which may create an empty debt row (0, 0) that meets the invariant, and the other handlers that only read or display data are left out too.
- Other code that is not part of this model: `app/auth.py`, `app/cli.py`, `app/__init__.py`, and `config.py` beyond its constants.
- Input validation: no handler calls `validate_settlement_data` (app/utils.py:257), and `api_create_settlement` converts the income and expenses unchecked (app/routes.py:131-132). A negative income or expense therefore reaches the calculator and the ledger, in the model as in the code (RoutesProperties.NegativeIncomeBreaksInvariant). The model keeps the validation as a separate operation.
- Settlement.ValidConfig: Settlement.Settle, Settlement.Redistribute, Settlement.ApplySalary, Settlement.CalculateSettlementValues, Routes.CreateSettlement and the payout lemmas require distinct share names and positive ratios. The shipped constants meet it (SettlementExamples.DefaultConfigValid); other share tables are not modelled, and a zero ratio can make the division at app/utils.py:104 raise.
- AdminProperties.NotifyOutcomeCases: does not bound the count for a selection by the number of users, only by the number of listed ids, because a repeated id counts each time.
- SettlementProperties.RedistributionConservation: states conservation up to half a cent per member, not exactly, because each additional share is quantised separately.
