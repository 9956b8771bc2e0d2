# Fleet cost allocation dashboard — a Dafny model

This project models the computing core of a fleet-operations dashboard for
a bus company. The dashboard is a React application backed by a spreadsheet
API. It holds the vehicles with their kilometres per year, the profit and
loss (P&L) and balance-sheet rows of the company's ledger, the cost
classification of each account, the amortisation accounts, and the monthly
income of each vehicle. From these it computes, per year:

- which vehicles were in the fleet and for how many months (the time
  coefficient);
- which P&L rows are expenses, how they are classified (direct or
  indirect, fixed or variable, routed to a vehicle or to "General") and how
  annual and monthly rows are deduplicated;
- how the cost pools are shared over the active vehicles, by time or by
  kilometres, with the amortisation pools;
- per-vehicle and fleet-wide profit, cost per kilometre and break-even
  point, and the dashboard's ratios and per-bus-type costs.

Around this core it models the handlers that edit the page state: the
vehicle and amortisation forms and cards, the classification queue, the
monthly income grid, the Excel import review, and the spreadsheet client's
response cache and column mapping.

## Modules

One Dafny module per source file, plus shared modules:

- `Wrappers`, `Collections`, `Text`, `Numbers`: optional values, the
  JavaScript sequence idioms (`filter`, `reduce`, `new Set`, numeric
  `sort`), string operations (`trim`, `\s`, `\d`, ASCII case mapping,
  `replace`) and the text-to-number conversions (`parseFloat`, `parseInt`,
  `Number`).
- `Domain`: the entities of `src/types.ts`, and spreadsheet cells with
  JavaScript truthiness, `x || y` and `Number(x)`.
- `Dates`: `new Date(y, m, d)` with its month and day overflow and its
  two-digit-year rule, `yyyyMmDdToDate`, and the sheet's `formatDate`.
- `Activity`, `Allocation`, `Ledger`, `Income`: the time coefficient in its
  three copies, pool sharing and break-even, account codes and the two
  classification lookups, and the income match by normalised plate.
- `CostAnalysis`, `VehicleAnalysis`, `Dashboard`, `Fleet`, `Amortization`,
  `ClassificationPage`, `MonthlyIncome`, `ImportExcel`: the pages.
- `AmortizationCard`, `AmortizationForm`, `VehicleCard`, `VehicleForm`:
  the components.
- `Sheets`: the spreadsheet client.

Handlers that update component state are classes whose methods state the
whole new state. Loops that accumulate into a record are methods proved
against a specification function; the function's properties are lemmas.

Conventions:

- Amounts are exact reals.
- `None` stands for `NaN`, `undefined` or `null`, wherever the source can
  produce one and it matters.
- The current date, `prompt` and `confirm` answers, the success of a sheet
  request and the data a request returns are parameters.
- The engine's `new Date(text)` fallback is a parameter
  `native: string -> Option<Date>`.

## Behaviour of the code worth knowing

- **Direct costs routed to a vehicle are counted twice.**
  - `CostAnalysis.tsx` counts them in the direct pools that are shared by
    time and by kilometres. It also charges them again to the vehicle
    whose plate they name, as "directly imputed" costs (the comment at
    `CostAnalysis.tsx:264`) (`CostAnalysis.DoubleCounting`).
  - `VehicleAnalysis.tsx` does the same for indirect costs routed to a
    plate (`VehicleAnalysis.RoutedIndirectCountedTwice`).
- **Amortisation pools are chosen by account name.** An account whose
  lower-cased name contains "software" or "licencia" is intangible. One
  that contains none of these and not "flota" is tangible
  (`VehicleAnalysis.AmortisationPools`).
- **Pools with nothing to share them are dropped.** Without kilometres,
  every variable share is 0. A direct cost routed to a label that is
  neither "General" nor an active plate reaches no vehicle
  (`VehicleAnalysis.VariableSharesLost`,
  `VehicleAnalysis.UnroutedDirectDropped`, `CostAnalysis.VariablePoolsLost`).
- **Annual and monthly rows.**
  - `CostAnalysis.tsx` takes every row of the year, whatever its month,
    so an annual row and the monthly rows of the same account are all
    summed. The comment at `CostAnalysis.tsx:184` says month 0 is annual
    but does not choose between them (`CostAnalysis.EveryMonthCounts`).
  - `VehicleAnalysis.tsx` prefers the annual row, as its comment at
    `VehicleAnalysis.tsx:110` says: in a year with a month-0 row it keeps
    only month-0 rows, and otherwise only the rows of months 1 to 12
    (`VehicleAnalysis.DeduplicatedRows`).
- **Break-even guards differ between the three pages.**
  - `VehicleAnalysis.tsx` has no guard, so a variable cost equal to the
    income gives a non-finite point.
  - Above the income, `VehicleAnalysis.tsx` and `Dashboard.tsx` give a
    negative point where `CostAnalysis.tsx` gives 0
    (`VehicleAnalysis.BreakEvenNegative`, `Dashboard.NegativeBreakEven`).

## Model

| member | source | states |
|---|---|---|
| Activity.YearStart | src/pages/CostAnalysis.tsx:230 | `new Date(year, 0, 1)` is 1 January of the year, with JavaScript's reading of years 0 to 99 as 1900 + year |
| Activity.YearEnd | src/pages/CostAnalysis.tsx:231 | `new Date(year, 11, 31)` is 31 December of the year, with the same year reading |
| Activity.Sold | src/pages/CostAnalysis.tsx:233 | the sale date is absent exactly when the sale-date text is empty (falsy) |
| Activity.MonthSpanRange | src/pages/CostAnalysis.tsx:235-239 | for a vehicle that is not excluded, the clipped window starts and ends in the study year, so the month difference lies in -11 .. 11 |
| Activity.CoefTimeBounds | src/pages/CostAnalysis.tsx:239-243 | `monthsActive` is clamped to 1 .. 12 and `coefTime = monthsActive / 12` lies in [1/12, 1] |
| Activity.AnnualCoefficientBounds | src/pages/VehicleAnalysis.tsx:156-165 | for a vehicle that is not excluded, `annualCoefficient = (months <= 0 ? 1 : months + 1) / 12` lies in [1/12, 1] |
| Activity.FleetCoefficientZeroIff | src/pages/FleetManagement.tsx:39-54 | `calculateCoefficient` is 0 exactly when the vehicle was acquired after 31 December or sold before 1 January of the study year, and otherwise lies in [1/12, 1] |
| Activity.CoefficientsAgree | src/pages/FleetManagement.tsx:45-53 | the three copies of the coefficient (cost analysis, vehicle analysis, fleet page) are equal for every vehicle that is not excluded |
| Activity.FirstOfJuly | src/pages/FleetManagement.tsx:47-53 | a vehicle acquired on 1 July of the study year and never sold is active and gets 6/12 |
| Activity.FirstOfJulyVehicle | src/pages/FleetManagement.tsx:41-53 | the same holds for a vehicle whose acquisition date is stored as the text `YYYY-07-01` with no sale date |
| Allocation.Share | src/pages/CostAnalysis.tsx:282-284 | a share is 0 when the total weight is not positive, and otherwise satisfies share × total = pool × weight |
| Allocation.ShareByRatio | src/pages/CostAnalysis.tsx:280-285 | the page's other spelling `pool * (total > 0 ? w / total : 0)` is the same share |
| Allocation.PerUnit | src/pages/CostAnalysis.tsx:292 | `units > 0 ? amount / units : 0` is 0 without units and otherwise the amount per unit |
| Allocation.ShareBounds | src/pages/CostAnalysis.tsx:282-286 | a share of a non-negative pool for a weight within the total lies between 0 and the pool |
| Allocation.Conservation | src/pages/CostAnalysis.tsx:276-286 | when the weights have a positive total, the shares of all vehicles sum to the pool |
| Allocation.NothingApportioned | src/pages/CostAnalysis.tsx:280-286 | when the weights total 0, every share is 0 and so is their sum |
| Allocation.ContributionRatio | src/pages/CostAnalysis.tsx:295 | the contribution ratio is 0 unless income is positive, then satisfies ratio × income = income − variable, and is non-negative when variable costs do not exceed income |
| Allocation.BreakEven | src/pages/CostAnalysis.tsx:296 | the break-even is 0 unless the ratio is positive, and then satisfies break-even × ratio = fixed |
| Allocation.BreakEvenCoversFixed | src/pages/CostAnalysis.tsx:295-296 | at the break-even income the contribution margin equals the fixed costs |
| Amortization.ActiveAccounts | src/pages/Amortization.tsx:91 | the active list holds exactly the accounts that run in the study year |
| Amortization.CompletedAccounts | src/pages/Amortization.tsx:92 | the completed list holds exactly the accounts that do not run in the study year |
| Amortization.ActiveCompletedPartition | src/pages/Amortization.tsx:84-92 | the two lists partition the accounts: their lengths add up and every account is in exactly one |
| Amortization.ActiveIffEndYear | src/pages/Amortization.tsx:84-89 | an account whose end date is written YYYY-MM-DD runs in the study year exactly when it ends in that year or a later one |
| Amortization.WithValues | src/pages/Amortization.tsx:75-77 | the accounts with the id get the new annual values, every other account is unchanged, and the length stays |
| Amortization.Ended | src/pages/Amortization.tsx:56-61 | an account is submitted exactly when the prompt's answer is non-empty, and it differs from the original only in its end date, which is the answer |
| Amortization.AmortizationPage.constructor | src/pages/Amortization.tsx:12-27 | the page starts with the loaded list |
| Amortization.AmortizationPage.SubmitAccount | src/pages/Amortization.tsx:44-54 | after a successful upsert the list is the list read back from the sheet; after a failed one it is unchanged |
| Amortization.AmortizationPage.EndAmortization | src/pages/Amortization.tsx:56-62 | the submitted account is the prompted one; a cancelled or empty answer submits nothing and changes nothing |
| Amortization.AmortizationPage.UpdateAnnualValue | src/pages/Amortization.tsx:64-79 | the first account with the id has its year set to the value and that map is sent; the list changes only on success, to the accounts with the new map; an unknown id sends and changes nothing |
| Amortization.AnnualValueOnlyThatYear | src/pages/Amortization.tsx:68-77 | the update sets that year's value, keeps every other year's value and every other field, and leaves accounts with other ids alone |
| Amortization.UpdateKeepsActive | src/pages/Amortization.tsx:75-92 | an annual-value update moves no account between the active and the completed lists |
| Amortization.EndedCompletedIff | src/pages/Amortization.tsx:56-92 | ending an account with a YYYY-MM-DD date moves it to the completed list exactly when that date's year is before the study year |
| AmortizationCard.AllYears | src/components/AmortizationCard.tsx:15-18 | the listed years are strictly descending (each once) and are exactly the default years (current year, 2025, 2024, 2023) and the account's own years |
| AmortizationCard.MonthlyAmount | src/components/AmortizationCard.tsx:31 | twelve monthly amounts make the annual amount, and a non-negative annual amount gives a monthly amount between 0 and the annual amount |
| AmortizationCard.NoDigitsZero | src/components/AmortizationCard.tsx:77-78 | text without a digit sends the value 0 |
| AmortizationCard.GroupedAmount | src/components/AmortizationCard.tsx:75-78 | an amount written Spanish-style as the field displays it (`.` between thousands, `,` before the cents, a currency sign after) is read back as its value |
| AmortizationCard.GroupedAmountExample | src/components/AmortizationCard.tsx:75-78 | the displayed text "12.345,67 €" is read back as 12345.67 |
| AmortizationCard.AddedYearNotAgain | src/components/AmortizationCard.tsx:22-25 | once the page has stored an added year with a non-zero annual amount, that year is listed and cannot be added again |
| AmortizationCard.AmortizationCard.constructor | src/components/AmortizationCard.tsx:20 | the year input starts at next year |
| AmortizationCard.AmortizationCard.SetNewYear | src/components/AmortizationCard.tsx:86 | the year input holds `parseInt` of the typed text (`None` for NaN) |
| AmortizationCard.AmortizationCard.AddYear | src/components/AmortizationCard.tsx:22-29 | a set year without a value is sent with the annual amount and the input moves to the following year; otherwise nothing is sent and the input stays |
| AmortizationCard.AmortizationCard.EditYear | src/components/AmortizationCard.tsx:76-79 | an edit sends the account's id, the year, and `parseFloat` of the text with everything but digits, `,` and `-` removed and the first `,` made a point, or 0 |
| AmortizationForm.DashRuns | src/components/AmortizationFormModal.tsx:43 | the result holds no whitespace, and text without whitespace is left as it is |
| AmortizationForm.Slug | src/components/AmortizationFormModal.tsx:43 | the id made from a name holds only the characters `a-z`, `0-9` and `-` |
| AmortizationForm.SlugIdempotent | src/components/AmortizationFormModal.tsx:43 | slugging a slug changes nothing |
| AmortizationForm.DashRunsJoin | src/components/AmortizationFormModal.tsx:43 | a run of whitespace between two words without whitespace becomes a single dash |
| AmortizationForm.SlugJoin | src/components/AmortizationFormModal.tsx:43 | the slug of two slug words separated by whitespace is the two words joined by one dash |
| AmortizationForm.SlugDrops | src/components/AmortizationFormModal.tsx:43 | a character that is neither whitespace, nor `[a-z0-9-]`, nor an upper-case ASCII letter is dropped from the slug |
| AmortizationForm.Initial | src/components/AmortizationFormModal.tsx:15-25 | the form starts with the account being edited, or with a blank account starting today whose only annual value is 0 for the current year |
| AmortizationForm.Changed | src/components/AmortizationFormModal.tsx:35-38 | an edit changes exactly the named field: number fields take `parseFloat(value) \|\| 0`, text fields the text |
| AmortizationForm.NumberInputExamples | src/components/AmortizationFormModal.tsx:37 | a number field reads "12abc" as 12 and "-" as 0 |
| AmortizationForm.SubmitId | src/components/AmortizationFormModal.tsx:43 | the submitted id is the account's own when it has one, else the slug of its name |
| AmortizationForm.Submitted | src/components/AmortizationFormModal.tsx:43-49 | the submitted account has that id; the annual amount is written into the current year exactly when that year is 0 or missing, the account is new, or the annual amount changed; no other field changes |
| AmortizationForm.SubmitOnlyCurrentYear | src/components/AmortizationFormModal.tsx:46-49 | submitting keeps every other year as it was, and afterwards the current year is non-zero unless the annual amount is 0 |
| AmortizationForm.NewAccountSubmit | src/components/AmortizationFormModal.tsx:15-49 | a new account is submitted with its name's slug as id and its annual amount as the current year's only value |
| AmortizationForm.AccountForm.constructor | src/components/AmortizationFormModal.tsx:27 | the form's account starts as the initial state |
| AmortizationForm.AccountForm.Change | src/components/AmortizationFormModal.tsx:35-38 | the form's account becomes the changed account |
| AmortizationForm.AccountForm.Submit | src/components/AmortizationFormModal.tsx:40-52 | the account handed on is the submitted account, and the write into the current year is also seen by the form's own account, whose id stays |
| ClassificationPage.ExpenseIsAccount | src/pages/CostClassification.tsx:40-45 | a concept is an expense account exactly when it is an account code (8 or more leading digits after trimming) whose trimmed text does not start with 7 |
| ClassificationPage.ClassifiedCodes | src/pages/CostClassification.tsx:53-54 | the set holds the extracted code of every classification's cost type and nothing else |
| ClassificationPage.UnclassifiedSpec | src/pages/CostClassification.tsx:48-56 | a concept is listed as pending exactly when some P&L expense row carries it and no classification has its code, and it is listed once |
| ClassificationPage.LeadingSpaceHidden | src/pages/CostClassification.tsx:42-55 | a concept with whitespace before its code passes the expense test (which trims) but has the code "" (no trim), so once any cost type has no code such a concept is never listed |
| ClassificationPage.MaxId | src/pages/CostClassification.tsx:95 | the largest id, or 0: no id exceeds it, and it is 0 or some item's id |
| ClassificationPage.NewId | src/pages/CostClassification.tsx:95-96 | the new id is at least 1 and used by no existing item |
| ClassificationPage.QuickItem | src/pages/CostClassification.tsx:114-122 | a quick-added account is filed as INDIRECTO, FIJO, General, by months, with amount 0 and the account as cost type |
| ClassificationPage.ApplyEdit | src/pages/CostClassification.tsx:81 | an edit replaces the named field only; the id and every other field are kept |
| ClassificationPage.Updated | src/pages/CostClassification.tsx:81 | the items with the id are edited, every other item is unchanged, and the length stays |
| ClassificationPage.RequeuedIsExpense | src/pages/CostClassification.tsx:137 | for a cost type that does not start with whitespace, the re-queue test on delete is the expense test of the loading step |
| ClassificationPage.DistributionOptions | src/pages/CostClassification.tsx:68-71 | the options are the three static labels followed by every vehicle's plate, in fleet order |
| ClassificationPage.Page.constructor | src/pages/CostClassification.tsx:23-57 | the lists are as loaded; the pending list is computed from the P&L when it could be read, and is empty otherwise |
| ClassificationPage.Page.AddNewCost | src/pages/CostClassification.tsx:92-112 | on a successful insert the item is appended with a fresh id and every pending entry equal to its cost type is dropped; on an error nothing changes |
| ClassificationPage.Page.QuickAdd | src/pages/CostClassification.tsx:114-124 | on success the quick item is appended with a fresh id and the account leaves the pending list, which otherwise keeps its entries |
| ClassificationPage.Page.Update | src/pages/CostClassification.tsx:79-90 | after a successful write the list is the edited list; after a failed one it is the original list again |
| ClassificationPage.Page.Delete | src/pages/CostClassification.tsx:126-144 | after confirmation and a successful delete the items with that id are gone, and the cost type rejoins the pending list when it reads as an expense account; otherwise nothing changes |
| ClassificationPage.AddThenDelete | src/pages/CostClassification.tsx:92-135 | deleting a freshly added item restores the list, because its id is used by no other item |
| CostAnalysis.RecordOf | src/pages/CostAnalysis.tsx:127-141 | every account row's record carries `Math.abs` of its amount (non-negative, equal to the raw amount or its negation), its year and its concept |
| CostAnalysis.CostRecords | src/pages/CostAnalysis.tsx:147-149 | the cost records are no more than the rows and every amount is non-negative |
| CostAnalysis.IncomeRecords | src/pages/CostAnalysis.tsx:145-146 | the income records are no more than the rows and every amount is non-negative |
| CostAnalysis.Partition | src/pages/CostAnalysis.tsx:110-155 | the `forEach` loop over the P&L account rows builds exactly the cost records and the income records, in row order |
| CostAnalysis.PartitionStep | src/pages/CostAnalysis.tsx:145-149 | one more row appends its record to the incomes, to the costs, or to neither |
| CostAnalysis.PartitionIsExact | src/pages/CostAnalysis.tsx:145-149 | every account row is counted exactly once: as an income, as a cost, or as a row that is neither |
| CostAnalysis.IncomeIsNotCost | src/pages/CostAnalysis.tsx:145-148 | no row is both an income and a cost, and a row is a cost exactly when its raw amount is negative |
| CostAnalysis.IncomesByYear | src/pages/CostAnalysis.tsx:158-165 | the loop's map is the year-by-year accumulation of the income amounts |
| CostAnalysis.IncomeTotalsSums | src/pages/CostAnalysis.tsx:160-163 | each year's entry is the sum of that year's income amounts (0 for a year without any) |
| CostAnalysis.IncomeTotalsKeys | src/pages/CostAnalysis.tsx:160-163 | a year has an entry exactly when some income record carries that year |
| CostAnalysis.OfYearStep | src/pages/CostAnalysis.tsx:186-193 | one more record adds its amount to the sum of its own year and leaves every other year's sum alone |
| CostAnalysis.YearCostsOf | src/pages/CostAnalysis.tsx:186-208 | a year's entry holds every cost of that year, whatever its month, and the year's income or 0 |
| CostAnalysis.YearTotals | src/pages/CostAnalysis.tsx:188-207 | the year's total is the sum of its costs, direct plus indirect and fixed plus variable both equal it, and profit is income less total |
| CostAnalysis.EveryMonthCounts | src/pages/CostAnalysis.tsx:185-193 | there is no deduplication of annual and monthly rows: each further cost of the year raises the total by its whole amount |
| CostAnalysis.CostsByYear | src/pages/CostAnalysis.tsx:184-210 | the loop leaves exactly one entry per available year, and each entry is that year's figures |
| CostAnalysis.ActiveOf | src/pages/CostAnalysis.tsx:229-271 | a vehicle is dropped exactly when it was acquired after 31 December or sold before 1 January; a kept vehicle carries its `coefTime` in [1/12, 1] and its matched fleet income |
| CostAnalysis.ActiveVehicles | src/pages/CostAnalysis.tsx:229-272 | the active list is no longer than the fleet and every coefficient lies in [1/12, 1] |
| CostAnalysis.MetricsOf | src/pages/CostAnalysis.tsx:279-320 | a vehicle's fixed pools are shared by time coefficient and its variable pools by kilometres; total = fixed + variable, profit = income − total, cost per km × km = total, and the break-even follows the contribution-ratio rule |
| CostAnalysis.TotalsOf | src/pages/CostAnalysis.tsx:323-340 | the totals row's cost per km times its kilometres is its total cost, and is 0 without kilometres |
| CostAnalysis.CompanyBreakeven | src/pages/CostAnalysis.tsx:342-343 | the company break-even follows the same contribution-ratio rule on the totals, and is 0 without income |
| CostAnalysis.VehicleAnalysis | src/pages/CostAnalysis.tsx:216-345 | the analysis is absent exactly when there are no vehicles or the selected year has no entry or a zero total; the company break-even is taken from the totals row |
| CostAnalysis.CoefTimePositive | src/pages/CostAnalysis.tsx:277 | a non-empty list of active vehicles has a positive total time coefficient |
| CostAnalysis.FixedPoolsConserved | src/pages/CostAnalysis.tsx:282-286 | the direct fixed, indirect fixed and indirect amortisation pools are shared out completely over the vehicles |
| CostAnalysis.VariablePoolsConserved | src/pages/CostAnalysis.tsx:280-285 | when any kilometres were driven, the direct and indirect variable pools are shared out completely |
| CostAnalysis.VariablePoolsLost | src/pages/CostAnalysis.tsx:280-285 | without kilometres, no vehicle gets any variable cost, so the variable pools vanish from the allocation |
| CostAnalysis.ActivesHaveTime | src/pages/CostAnalysis.tsx:272-277 | whenever some vehicle is active, the total time coefficient is positive |
| CostAnalysis.AnalysisConservesPools | src/pages/CostAnalysis.tsx:274-334 | in the page's result, the totals row's fixed columns and indirect amortisation equal the year's pools, and its variable columns do too once kilometres were driven |
| CostAnalysis.KmsColumn | src/pages/CostAnalysis.tsx:324 | the kilometres column of the totals row is the sum of the active vehicles' kilometres |
| CostAnalysis.DoubleCounting | src/pages/CostAnalysis.tsx:265-288 | the fleet's total cost is the year's cost plus both amortisations plus the imputed costs a second time |
| CostAnalysis.TotalCostsByColumn | src/pages/CostAnalysis.tsx:288-332 | the totals row's total cost is the sum of its seven cost columns |
| CostAnalysis.ImputedAlsoPooled | src/pages/CostAnalysis.tsx:265-267 | with non-negative amounts, a vehicle's imputed costs are part of the year's costs and never exceed their sum |
| Dashboard.YearIncome | src/pages/Dashboard.tsx:66-80 | the year's income is own fleet plus subcontracted; own is the sum of the own-fleet rows and subcontracted the sum of the monthly values of the first record of the year; without a record all three are 0 |
| Dashboard.TotalIsFixedPlusVariable | src/pages/Dashboard.tsx:83-87 | since every classification is FIJO or VARIABLE, the cost card's total equals the fixed plus the variable costs |
| Dashboard.VehicleDivisor | src/pages/Dashboard.tsx:140 | the divisor is at least 1, and equals the number of typed vehicles when there is any |
| Dashboard.GroupResult | src/pages/Dashboard.tsx:139-164 | a group's row carries its label; cost per hour × the group's hours is the group's share of the costs (0 for an empty group), and cost per km × km is that share (0 without kilometres) |
| Dashboard.CostsByBusType | src/pages/Dashboard.tsx:90-168 | the loops build exactly the table of rows specified group by group |
| Dashboard.TypeRowsStep | src/pages/Dashboard.tsx:117-165 | one more group extends the table by that group's row, if it has members |
| Dashboard.GroupRow | src/pages/Dashboard.tsx:118-164 | one group's pass of the loop yields the row specified for that group |
| Dashboard.GroupByType | src/pages/Dashboard.tsx:92-103 | the vehicle loop puts every vehicle into its group's list, in fleet order |
| Dashboard.MembersStep | src/pages/Dashboard.tsx:98-103 | one more vehicle is appended to its own group's list and to no other |
| Dashboard.SumKms | src/pages/Dashboard.tsx:121-125 | the loop's `totalKms` is the group's kilometre total for the year |
| Dashboard.TypeRowsShape | src/pages/Dashboard.tsx:117-118 | the table has one row per non-empty group, in the groups' order, each labelled with its group |
| Dashboard.BusTypeCostsShape | src/pages/Dashboard.tsx:92-118 | the table lists the non-empty groups among Micro, Normal and Grande, in that order |
| Dashboard.TypelessIsNormal | src/pages/Dashboard.tsx:99-101 | a vehicle without a type is in the Normal group but is not counted in the divisor |
| Dashboard.GroupCounts | src/pages/Dashboard.tsx:98-103 | every vehicle is in exactly one group or in none |
| Dashboard.GroupTotalsAdd | src/pages/Dashboard.tsx:141-146 | groups of sizes adding up to n share out the costs in the proportion n to the divisor |
| Dashboard.GroupTotalsSum | src/pages/Dashboard.tsx:140-146 | when every vehicle is in a group, the groups' cost shares add up to the costs times the fleet size over the divisor |
| Dashboard.SumOfGroupTotalsOf | src/pages/Dashboard.tsx:140-146 | the groups' cost shares add up to the costs times the total group size over the divisor |
| Dashboard.GroupSizes | src/pages/Dashboard.tsx:98-103 | when every vehicle is in a group, the group sizes add up to the fleet |
| Dashboard.TypedFleetConservation | src/pages/Dashboard.tsx:140-146 | when every vehicle is typed Micro, Normal or Grande, the groups share out exactly the fixed plus variable costs |
| Dashboard.WholeProportion | src/pages/Dashboard.tsx:141-145 | a proportion of n over n is the whole amount |
| Dashboard.AllGrouped | src/pages/Dashboard.tsx:99-101 | a fleet whose types are all Micro, Normal or Grande is all typed and all grouped |
| Dashboard.NamedTypeGrouped | src/pages/Dashboard.tsx:99-101 | a vehicle typed Micro, Normal or Grande is typed and in a group |
| Dashboard.TypelessOvercharge | src/pages/Dashboard.tsx:99-141 | one typed and one typeless Normal vehicle charge the Normal group twice the costs |
| Dashboard.AvgCostPerHour | src/pages/Dashboard.tsx:171-174 | the average is 0 without rows, and otherwise times the number of rows equals the sum of the costs per hour |
| Dashboard.SumByBounds | src/pages/Dashboard.tsx:173 | a sum of costs per hour within bounds lies within the bounds times the number of rows |
| Dashboard.AvgWithinBounds | src/pages/Dashboard.tsx:171-174 | the average lies between the smallest and the largest cost per hour |
| Dashboard.ConceptAmount | src/pages/Dashboard.tsx:181-187 | the amount is that of the first row mentioning the first term any row mentions, `Number(amount) \|\| 0`, and 0 when no term is mentioned |
| Dashboard.GetConcept | src/pages/Dashboard.tsx:181-187 | the loop that returns at the first hit yields exactly that amount |
| Dashboard.NoBalanceRows | src/pages/Dashboard.tsx:177-199 | a year without balance rows reads as all zeros |
| Dashboard.Variation | src/pages/Dashboard.tsx:201 | the variation is 0 without a previous value; otherwise it is the percent change over the previous value's magnitude, positive exactly when the value grew and 0 exactly when it stayed |
| Dashboard.Quotient | src/pages/Dashboard.tsx:237-243 | the quotient is 0 for a zero denominator and otherwise times the denominator gives the numerator |
| Dashboard.RatiosOf | src/pages/Dashboard.tsx:230-244 | working capital is current assets less current liabilities; liquidity, solvency and leverage are 0 for a zero denominator and otherwise the stated quotients |
| Dashboard.LiquidityAgreesWithWorkingCapital | src/pages/Dashboard.tsx:234-237 | with positive current liabilities, working capital is negative exactly when liquidity is below 1 |
| Dashboard.ContributionRatio | src/pages/Dashboard.tsx:297 | the ratio is 0 without sales, and otherwise times sales gives the contribution margin |
| Dashboard.BreakEvenPoint | src/pages/Dashboard.tsx:299 | the break-even is 0 for a zero ratio, and otherwise times the ratio gives the fixed costs |
| Dashboard.BreakEvenOf | src/pages/Dashboard.tsx:289-304 | sales are the year's income total, the fixed and variable costs are the FIJO and VARIABLE sums, profit is sales less both, and the break-even follows the ratio rule |
| Dashboard.BreakEvenCoversFixed | src/pages/Dashboard.tsx:294-299 | at the break-even sales the contribution margin covers exactly the fixed costs |
| Dashboard.NegativeBreakEven | src/pages/Dashboard.tsx:297-299 | variable costs above positive sales give a negative break-even point, which the page shows as it is |
| Dates.DaysInMonth | src/lib/utils.ts:40 | every month has 28 to 31 days, as the calendar behind `new Date` has |
| Dates.EarlierTotal | src/pages/CostAnalysis.tsx:235 | the comparison of dates is a strict total order |
| Dates.JsYear | src/lib/utils.ts:40 | `new Date(y, …)` reads a year from 0 to 99 as 1900 + y and any other year as it is |
| Dates.Normalize | src/lib/utils.ts:40 | rolling a month index and day over, as `new Date` does, always gives a valid date |
| Dates.MakeDate | src/lib/utils.ts:40 | `new Date(y, monthIndex, day)` always gives a valid date |
| Dates.NormalizeValid | src/lib/utils.ts:40 | a valid date survives the roll-over unchanged |
| Dates.MakeDateValid | src/lib/utils.ts:40 | `new Date(y, m - 1, d)` is the date (y, m, d) itself when it is valid and y is outside 0 to 99 |
| Dates.DigitsThenSeparator | src/lib/utils.ts:38 | a match is a digit run of the allowed length followed by `-` or `/`, and splits the text exactly there |
| Dates.MatchEuropean | src/lib/utils.ts:38 | a European match yields a day and a month of one or two digits and a year of four |
| Dates.MatchIso | src/lib/utils.ts:45 | an ISO match yields a year of four digits and a month and a day of one or two |
| Dates.ParseDate | src/lib/utils.ts:33 | an empty text is read as 1 January 2000 |
| Dates.FromFields | src/lib/utils.ts:40-48 | building a date from matched digit fields always gives a valid date |
| Dates.ParseDateTrims | src/lib/utils.ts:35 | surrounding whitespace is ignored: a text is read as its trimmed form |
| Dates.ParseDateFallback | src/lib/utils.ts:51-55 | text that neither pattern nor the engine accepts is read as 1 January 2000 |
| Dates.SplitAtSeparator | src/lib/utils.ts:38 | a digit field followed by a separator is split at that separator |
| Dates.EuropeanFields | src/lib/utils.ts:38 | text shaped D-M-YYYY, with either separator, matches the European pattern field by field |
| Dates.IsoFields | src/lib/utils.ts:38-45 | text shaped YYYY-M-D fails the European pattern and matches the ISO one field by field |
| Dates.ParseDateDigitEnds | src/lib/utils.ts:35 | a text that starts and ends with a digit is read without change by the trim |
| Dates.FromFieldsOf | src/lib/utils.ts:40-47 | the digit fields of a valid date whose year is outside 0 to 99 build that date back |
| Dates.DateFields | src/lib/utils.ts:28-29 | a date's year is written as four digits and its month and day as two, each read back as itself |
| Dates.ParseIsoFields | src/lib/utils.ts:45-48 | text shaped YYYY-M-D is read as the date built from its fields |
| Dates.ParseEuropeanFields | src/lib/utils.ts:38-41 | text shaped D-M-YYYY is read as the date built from its fields |
| Dates.ParseDateIso | src/lib/utils.ts:32-49 | the YYYY-MM-DD text of a valid date from year 1000 to 9999 is read back as that date |
| Dates.ParseDateEuropean | src/lib/utils.ts:32-41 | the DD-MM-YYYY text of such a date, with either separator, is read back as that date |
| Dates.MixedSeparators | src/lib/utils.ts:45 | the two separators are matched independently: `2024-01/05` is 5 January 2024 |
| Dates.MakeDateTwoDigit | src/lib/utils.ts:47 | `new Date(y, …)` with y from 0 to 99 lands on the matching date in 1900 to 1999 |
| Dates.ParseDateTwoDigitYear | src/lib/utils.ts:45-48 | a four-digit year field from 0000 to 0099 is read in the twentieth century |
| Dates.TwoDigitYear | src/lib/utils.ts:45-48 | `0024-03-01` is read as 1 March 1924 |
| Dates.DayOverflow | src/lib/utils.ts:40-41 | a day past the month's end runs into the next month: `31-02-2023` is 3 March 2023 |
| Dates.FormatDate | src/lib/googleSheetsApi.ts:395-428 | an empty cell gives the empty text, and a text starting with an ISO date gives a prefix of itself |
| Dates.StartsIsoBefore | src/lib/googleSheetsApi.ts:399-400 | cutting a text that starts with an ISO date at its first `T` keeps the ISO start and leaves no `T` |
| Dates.EuropeanOutputIso | src/lib/googleSheetsApi.ts:405-409 | the text written for a European date starts with an ISO date and holds no `T` |
| Dates.FormatEuropeanFields | src/lib/googleSheetsApi.ts:404-410 | a European date is rewritten field by field as YYYY-MM-DD with padded month and day |
| Dates.FormatDateIdempotent | src/lib/googleSheetsApi.ts:395-428 | formatting twice gives the same text as once, except for text that is not ISO, holds a `T`, and is a European date before the `T` |
| Dates.FormatEuropeanExample | src/lib/googleSheetsApi.ts:405-409 | `5-3-2024` is written `2024-03-05` |
| Dates.FormatDateCut | src/lib/googleSheetsApi.ts:414-416 | text that is neither ISO nor European but holds a `T` is cut at the first `T` |
| Dates.FormatDateNotIdempotent | src/lib/googleSheetsApi.ts:399-416 | the exception happens: `5-3-2024T10` becomes `5-3-2024`, which a second pass turns into `2024-03-05` |
| Dates.FormatThenParseEuropean | src/lib/googleSheetsApi.ts:404-410 | the text written for a European date is read back by the date parser as the same date |
| Fleet.ActiveVehicles | src/pages/FleetManagement.tsx:109 | the active list holds exactly the vehicles that are not excluded from the study year |
| Fleet.InactiveVehicles | src/pages/FleetManagement.tsx:110 | the inactive list holds exactly the vehicles excluded from the study year |
| Fleet.ActiveInactivePartition | src/pages/FleetManagement.tsx:109-110 | the two lists partition the fleet: every vehicle is in one of them and their lengths add up |
| Fleet.SoldVehicle | src/pages/FleetManagement.tsx:95-96 | the sold vehicle differs only in its sale date and sale value, and a cancelled or empty value prompt gives the value 0 |
| Fleet.Sale | src/pages/FleetManagement.tsx:92-98 | a vehicle is submitted exactly when the date prompt's answer is non-empty, carrying that date and otherwise the same fields |
| Fleet.WithKms | src/pages/FleetManagement.tsx:86-88 | the vehicles with the id get the new kilometre map and every other vehicle is unchanged |
| Fleet.FleetPage.constructor | src/pages/FleetManagement.tsx:25-37 | the page starts with the loaded list |
| Fleet.FleetPage.UpdateKms | src/pages/FleetManagement.tsx:75-90 | the first vehicle with the id has its year set to the kilometres and that map is sent; only a successful write changes the list; an unknown id changes nothing |
| Fleet.FleetPage.SubmitVehicle | src/pages/FleetManagement.tsx:63-73 | after a successful upsert the list is the list read back; after a failed one it stays |
| Fleet.FleetPage.SellVehicle | src/pages/FleetManagement.tsx:92-98 | the submitted vehicle is the prompted sale; a cancelled or empty date submits nothing and changes nothing |
| Fleet.KmsUpdateOnlyThatYear | src/pages/FleetManagement.tsx:76-88 | the update sets that year's kilometres, keeps every other year's and every other field, and leaves the other vehicles alone |
| ImportExcel.SpanishIgnoresSpaces | src/pages/Import.tsx:128-136 | whitespace anywhere in an amount is ignored: the text reads as its whitespace-free form |
| ImportExcel.SpanishRewrite | src/pages/Import.tsx:130-135 | a whitespace-free text whose dots-dropped, comma-to-point rewrite is `a.b` reads as the number a.b |
| ImportExcel.SpanishDecimal | src/pages/Import.tsx:133-134 | the comma is the decimal point: `a,b` reads as a.b |
| ImportExcel.ThousandsRewritten | src/pages/Import.tsx:133 | dropping the dots of `a.b,c` and turning its comma into a point gives `ab.c` |
| ImportExcel.SpanishThousands | src/pages/Import.tsx:128-136 | every dot is a thousands separator whatever the group sizes: `a.b,c` reads as ab.c |
| ImportExcel.ThousandsParts | src/pages/Import.tsx:130-133 | `a.b,c` is whitespace-free and rewrites to `ab.c` with both parts non-empty digits |
| ImportExcel.ReviewAmountAgrees | src/pages/Import.tsx:470 | on whitespace-free text the review table's amount parse agrees with the import parse wherever the latter gives a number |
| ImportExcel.ValidConceptTrimmed | src/pages/Import.tsx:148-155 | the concept test looks at the trimmed text only |
| ImportExcel.SideItem | src/pages/Import.tsx:164-184 | one side of a row gives an item only with an account code in its code column and a readable amount, which is the item's amount |
| ImportExcel.SideCodeTest | src/pages/Import.tsx:140-145 | the import's code test on trimmed text is the ledger's account-code test: eight leading digits |
| ImportExcel.ItemOf | src/pages/Import.tsx:172 | the item's concept, code then space then concept, starts with an account code |
| ImportExcel.RowItemsBy | src/pages/Import.tsx:158-185 | a row gives at most two items: the left side's, then the right side's when the row has seven cells |
| ImportExcel.ExtractedBy | src/pages/Import.tsx:158-186 | the extraction gives at most two items per row |
| ImportExcel.ReadRow | src/pages/Import.tsx:159-185 | the body of the row loop pushes exactly that row's items |
| ImportExcel.ExtractFinancial | src/pages/Import.tsx:125-186 | the row loop pushes exactly the items of all rows, in row order |
| ImportExcel.ExtractedComplete | src/pages/Import.tsx:158-185 | every side of every row that yields an item contributes it |
| ImportExcel.ExtractedSound | src/pages/Import.tsx:158-185 | every extracted item comes from one side of one row |
| ImportExcel.ExtractedHaveCodes | src/pages/Import.tsx:170-183 | every item read from a balance sheet starts with an account code |
| ImportExcel.IndexOfConcept | src/pages/Import.tsx:193-197 | the position found holds the concept, and none is found exactly when no item has it |
| ImportExcel.LastWith | src/pages/Import.tsx:194-196 | the item found is one of the items and has the concept; none is found only when no item has it |
| ImportExcel.UniqueByConcept | src/pages/Import.tsx:193-197 | the deduplicated list is no longer than the items and non-empty when they are |
| ImportExcel.UniqueByConceptSpec | src/pages/Import.tsx:192-197 | one item per distinct concept, in order of first occurrence, each the last item with that concept |
| ImportExcel.UniqueConcepts | src/pages/Import.tsx:193-197 | the deduplicated concepts are the distinct concepts, in order of first occurrence |
| ImportExcel.UniqueLast | src/pages/Import.tsx:194-196 | the item kept for each concept is the last item with that concept |
| ImportExcel.DedupByConcept | src/pages/Import.tsx:193-197 | the `Map` loop yields exactly the deduplicated list |
| ImportExcel.ProcessExcelFinancial | src/pages/Import.tsx:112-207 | the import fails exactly when nothing was extracted, and otherwise yields the non-empty deduplicated list |
| ImportExcel.Round | src/pages/Import.tsx:242 | `Math.round` gives the integer within a half of x, halves rounded up |
| ImportExcel.TypeOfSeats | src/pages/Import.tsx:228-230 | fewer than 30 seats is Micro, 60 or more is Grande, and anything else, an unreadable figure included, is Normal |
| ImportExcel.FleetRow | src/pages/Import.tsx:222-243 | every imported row gets one of the three size classes |
| ImportExcel.EmptyRowDefaults | src/pages/Import.tsx:224-242 | a row with none of the known columns gets every default: plate `TEMP-n`, number n, 2020-01-01, 100000, 55 seats, 6 wheels, Normal, amortisation 10000 |
| ImportExcel.FleetRows | src/pages/Import.tsx:222-244 | the kept rows are no more than the sheet's and each has a plate other than `undefined` |
| ImportExcel.ProcessExcelFleet | src/pages/Import.tsx:209-250 | the import fails exactly when no row is kept, and otherwise yields the non-empty list of rows with a plate |
| ImportExcel.RemoveAt | src/pages/Import.tsx:487 | removing a row at a valid index shifts the later rows down by one; any other index leaves the list alone |
| ImportExcel.RemoveAtMultiset | src/pages/Import.tsx:485-489 | removing a row loses exactly that row |
| ImportExcel.ApplyEdit | src/pages/Import.tsx:494 | editing a field other than the type keeps the type, and editing the seats sets them without recomputing the type |
| ImportExcel.Review.constructor | src/pages/Import.tsx:45-46 | the review starts with the extracted lists |
| ImportExcel.Review.ChangeAmount | src/pages/Import.tsx:468-475 | only the amount of the item at the index changes, to the parsed value or 0; the fleet list stays |
| ImportExcel.Review.ChangeConcept | src/pages/Import.tsx:477-483 | only the concept of the item at the index changes; the fleet list stays |
| ImportExcel.Review.RemoveFinancialRow | src/pages/Import.tsx:485-489 | the item at the index is removed; the fleet list stays |
| ImportExcel.Review.ChangeFleetField | src/pages/Import.tsx:491-497 | only the edited field of the row at the index changes; the financial list stays |
| ImportExcel.Review.RemoveFleetRow | src/pages/Import.tsx:499-503 | the row at the index is removed; the financial list stays |
| Domain.Pick | src/pages/Import.tsx:224-242 | `row.a \|\| row.b \|\| … \|\| fallback` is the first truthy column, or the fallback when none is |
| Domain.PickAbsent | src/pages/Import.tsx:224-242 | a row with none of the columns takes the fallback |
| Domain.YearOf | src/pages/CostAnalysis.tsx:73 | `Number(d.year)` read as a year: the whole number it gives, and no year exactly when the cell is not a number or is a fraction |
| Income.NormalizeId | src/pages/CostAnalysis.tsx:248 | a falsy identifier normalises to the empty text, any other to its text upper-cased with whitespace removed |
| Income.NormalizeText | src/pages/CostAnalysis.tsx:248 | the normalised text holds no whitespace and no lower-case letter |
| Income.RemoveSpacesNoLower | src/pages/CostAnalysis.tsx:248 | removing whitespace from an upper-cased text leaves no lower-case letter |
| Income.NormalizeIgnoresSpace | src/pages/CostAnalysis.tsx:248 | an extra whitespace character inside a plate does not change its normal form |
| Income.NormalizeIgnoresCase | src/pages/CostAnalysis.tsx:248 | upper-casing a plate first does not change its normal form |
| Income.NormalizeSame | src/pages/CostAnalysis.tsx:248 | two non-empty plates equal up to case have the same normal form |
| Income.EmptyPlateNeverMatches | src/pages/CostAnalysis.tsx:255-257 | a vehicle with an empty plate never matches an income row |
| Income.IncomeRow | src/pages/CostAnalysis.tsx:246-258 | without a record of the year there is no row; otherwise the row is the first own-fleet row that matches the plate |
| Income.VehicleIncomeTotal | src/pages/CostAnalysis.tsx:260-262 | a vehicle's income is every month of its matched row summed, and 0 without a row |
| Income.YearRecord | src/pages/CostAnalysis.tsx:219 | the record found is the first record with the year: it has the year and no earlier record has it; none is found exactly when no record has the year |
| Ledger.ExtractAccountCode | src/pages/CostAnalysis.tsx:79-83 | the code is non-empty exactly when the concept starts with eight digits, and is then the whole leading digit run |
| Ledger.AccountCodeAgrees | src/pages/CostAnalysis.tsx:79-107 | without leading whitespace, a concept is an account exactly when a code is extracted from it |
| Ledger.LeadingSpaceHasNoCode | src/pages/CostAnalysis.tsx:79-107 | a concept with whitespace before its code passes the account test, which trims, but yields no code, since extraction does not trim |
| Ledger.FindClassificationCA | src/pages/CostAnalysis.tsx:86-101 | a classification is found exactly when one matches the concept's code, and it is the first that matches |
| Ledger.FindClassificationVA | src/pages/VehicleAnalysis.tsx:74-82 | the same on the vehicle analysis page's matching rule, which also demands a code for the containment test |
| Ledger.EmptyCodeUnclassifiedVA | src/pages/VehicleAnalysis.tsx:78-79 | the vehicle analysis page never classifies a concept without a code |
| Ledger.EmptyCodeMatchesFirstCA | src/pages/CostAnalysis.tsx:96-97 | the cost analysis page gives a concept without a code the first classification with any cost type, since every text contains "" |
| Ledger.VariantsAgree | src/pages/VehicleAnalysis.tsx:74-82 | for a concept with a code, the two pages pick the same classification |
| Ledger.Classify | src/pages/CostAnalysis.tsx:131-140 | the record keeps year, month, concept and amount, is classified exactly when a classification was found, and takes INDIRECTO, FIJO, General and Meses as defaults, General also for an empty distribution |
| Ledger.OfYear | src/pages/CostAnalysis.tsx:186 | every cost kept carries the year |
| Ledger.CenterSplits | src/pages/CostAnalysis.tsx:201-202 | a centre's total is its fixed plus its variable costs |
| Ledger.BucketsPartition | src/pages/CostAnalysis.tsx:188-193 | the four centre × nature sums add up to the sum of all the costs |
| Ledger.StudyYears | src/pages/CostAnalysis.tsx:71-76 | the years are strictly descending, and are exactly the years after 2000 that are selected, carried by an income record, or carried by a P&L row as a whole `Number(year)` |
| MonthlyIncome.AvailableYears | src/pages/MonthlyIncome.tsx:39-42 | the years are strictly descending and are exactly the initial years and the years with data |
| MonthlyIncome.EditFleet | src/pages/MonthlyIncome.tsx:59-61 | the rows whose id is the edited one get the month set to the value; every other row is unchanged |
| MonthlyIncome.IncomePage.constructor | src/pages/MonthlyIncome.tsx:20-37 | the page starts with the loaded records and the selected year |
| MonthlyIncome.IncomePage.IncomeChange | src/pages/MonthlyIncome.tsx:49-76 | the records become the edited records with `parseFloat(value) \|\| 0`; the selected year stays |
| MonthlyIncome.EditKeepsOtherYears | src/pages/MonthlyIncome.tsx:69-73 | with a record of the year, the list keeps its length and every other year's record |
| MonthlyIncome.OwnEditSetsMonth | src/pages/MonthlyIncome.tsx:58-62 | an own-fleet edit sets that month on the rows with the id in the first record of the year; other rows, other months and the subcontracted amounts stay |
| MonthlyIncome.SubcontractedEditSetsMonth | src/pages/MonthlyIncome.tsx:63-66 | a subcontracted edit sets that month of the year's first record and nothing else |
| MonthlyIncome.EditAppendsYear | src/pages/MonthlyIncome.tsx:52-53 | with no record of the year, one is appended with no own rows and only the edited subcontracted month |
| MonthlyIncome.FleetTotals | src/pages/MonthlyIncome.tsx:96-101 | the totals have exactly one key per row id |
| MonthlyIncome.FleetTotalsLastWins | src/pages/MonthlyIncome.tsx:96-101 | the total under a key is that of the last row with the key |
| MonthlyIncome.OwnFleetTotals | src/pages/MonthlyIncome.tsx:94-102 | without a record of the year the totals are empty |
| MonthlyIncome.MonthlyTotals | src/pages/MonthlyIncome.tsx:104-119 | without a record there are no totals; otherwise every month 1 to 12 has the own plus subcontracted total, the grand totals are the row and subcontracted sums, and the grand total is their sum |
| MonthlyIncome.SumValuesByMonth | src/pages/MonthlyIncome.tsx:107-116 | for a map keyed by months up to n, summing its values is summing months 1 to n |
| MonthlyIncome.SumUpToRemove | src/pages/MonthlyIncome.tsx:107-110 | removing one month takes its value out of the sum of months 1 to n |
| MonthlyIncome.RowsThenColumns | src/pages/MonthlyIncome.tsx:107-113 | summing the own rows' totals or the monthly column totals gives the same |
| MonthlyIncome.MonthsSplit | src/pages/MonthlyIncome.tsx:107-110 | the months' totals split into the own columns and the subcontracted months |
| MonthlyIncome.GrandTotalIsSumOfMonths | src/pages/MonthlyIncome.tsx:107-117 | when every month map is keyed by months 1 to 12, the grand total is the sum of the twelve monthly totals |
| MonthlyIncome.DashboardAgrees | src/pages/Dashboard.tsx:66-80 | the dashboard's income card equals this page's twelve monthly totals summed, for the same year |
| Sheets.SetThenGet | src/lib/googleSheetsApi.ts:24-34 | a stored answer is returned for 30 seconds after it was stored |
| Sheets.SetThenExpire | src/lib/googleSheetsApi.ts:24-30 | after 30 seconds the stored answer is no longer returned |
| Sheets.SetKeepsOthers | src/lib/googleSheetsApi.ts:32-34 | storing under one key does not change what another key answers |
| Sheets.ClearKeepsOthers | src/lib/googleSheetsApi.ts:36-39 | clearing one sheet forgets its list and nothing else |
| Sheets.Cache.constructor | src/lib/googleSheetsApi.ts:21 | the cache starts empty |
| Sheets.Cache.GetCached | src/lib/googleSheetsApi.ts:24-30 | the stored data is returned exactly while it is younger than 30 seconds |
| Sheets.Cache.SetCache | src/lib/googleSheetsApi.ts:32-34 | the data is stored under the key with the current time, and nothing else changes |
| Sheets.Cache.ClearCache | src/lib/googleSheetsApi.ts:36-42 | a named sheet forgets only its list; no name, or the empty name, empties the cache |
| Sheets.Cache.List | src/lib/googleSheetsApi.ts:162-173 | a fresh cached answer is returned and nothing changes; otherwise the request's answer is returned and stored only when it succeeded |
| Sheets.KmsColumnsDistinct | src/lib/googleSheetsApi.ts:128-131 | the four kilometre columns are distinct |
| Sheets.ValueColumnsDistinct | src/lib/googleSheetsApi.ts:237-240 | the four annual value columns are distinct |
| Sheets.ToColumns | src/lib/googleSheetsApi.ts:128-131 | exactly the four year columns are written, each the year's value or 0 |
| Sheets.FromColumns | src/lib/googleSheetsApi.ts:100-105 | exactly the years 2023 to 2026 are read, each the column's value `\|\| 0` |
| Sheets.ColumnsRoundTrip | src/lib/googleSheetsApi.ts:100-131 | writing a per-year map and listing it back gives its values for 2023 to 2026 with 0 for a missing year; other years are lost |
| Sheets.ColumnsRoundTripExact | src/lib/googleSheetsApi.ts:100-131 | a map holding exactly the four years survives the round trip unchanged |
| Sheets.RowRoundTrip | src/lib/googleSheetsApi.ts:100-131 | listing numeric year columns and writing them back gives the same columns |
| Sheets.UpdateBody | src/lib/googleSheetsApi.ts:136-150 | an update without a per-year map sends the fields as they are; with one, its four year columns read back as the map's four years, and every other field is kept |
| Sheets.MonthAmount | src/lib/googleSheetsApi.ts:288-299 | a month's amount is the first of its columns whose number is non-zero, and 0 when there is none |
| Sheets.RowIncome | src/lib/googleSheetsApi.ts:287-300 | a row's income has exactly the months 1 to 12, each read from its columns |
| Sheets.RowYear | src/lib/googleSheetsApi.ts:276-277 | a row's year, when kept, is a whole `Number(row.year)` of at least 2000 |
| Sheets.OwnEntry | src/lib/googleSheetsApi.ts:325-334 | an own-fleet entry's id is its vehicle id, which is "" without an id column; the plate falls back to the vehicle id; the income is the row's |
| Sheets.ReadIncomeRow | src/lib/googleSheetsApi.ts:276-304 | a row is read with its year, its subcontracted flag and its own-fleet entry |
| Sheets.AddMonths | src/lib/googleSheetsApi.ts:308-322 | the subcontracted total after a row has the months 1 to 12, each the old amount plus the row's, a missing month read as 0 |
| Sheets.GroupedBy | src/lib/googleSheetsApi.ts:273-336 | each grouped record carries the year it is filed under |
| Sheets.ObjectValues | src/lib/googleSheetsApi.ts:338 | the records come out once each, in ascending year order |
| Sheets.YearsAscending | src/lib/googleSheetsApi.ts:338 | the years of the grouping, strictly ascending, each once |
| Sheets.ValuesAt | src/lib/googleSheetsApi.ts:338 | the records listed at ascending years are each record once, in ascending year order |
| Sheets.GroupedKeys | src/lib/googleSheetsApi.ts:275-285 | the years of the grouping are exactly the years the rows are read with |
| Sheets.GroupedYearsValid | src/lib/googleSheetsApi.ts:276-277 | every year of the grouping is at least 2000 |
| Sheets.GroupedNoRows | src/lib/googleSheetsApi.ts:275-285 | a year with no record has no rows |
| Sheets.GroupedOwnFleet | src/lib/googleSheetsApi.ts:323-335 | a year's own fleet lists the entries of its non-subcontracted rows, in input order |
| Sheets.AddRowSubcontracted | src/lib/googleSheetsApi.ts:306-322 | one row adds its month amount to its year's subcontracted month when it is subcontracted, and nothing otherwise |
| Sheets.GroupedSubcontracted | src/lib/googleSheetsApi.ts:306-322 | a year's subcontracted month is the sum of that month over the year's subcontracted rows |
| Sheets.GroupIncomesBy | src/lib/googleSheetsApi.ts:273-338 | the row loop and `Object.values` yield the records of the grouping in ascending year order |
| Sheets.GroupIncomes | src/lib/googleSheetsApi.ts:264-343 | the list is the rows grouped per year, one record per year in ascending year order |
| Numbers.ParseFloat | src/components/VehicleFormModal.tsx:35 | `parseFloat` fails exactly when the text, after leading whitespace, starts with no number |
| Numbers.NumberOf | src/pages/Dashboard.tsx:86 | `Number` reads blank text as 0 |
| Numbers.OrZero | src/pages/Dashboard.tsx:86 | `x \|\| 0`: the number when there is one, 0 for `NaN` |
| Numbers.IntOrZero | src/components/VehicleCard.tsx:83 | `parseInt(value) \|\| 0`: the integer when there is one, 0 for `NaN` |
| Numbers.Abs | src/pages/VehicleAnalysis.tsx:128 | `Math.abs`: the value or its negation, never negative |
| Numbers.ParseIntIntToString | src/components/VehicleFormModal.tsx:45 | `parseInt` reads back every integer written by `toString` |
| Numbers.NumberText | src/pages/Import.tsx:235 | `String(v)` writes a whole number as an integer, and a fraction with a decimal point and a leading `-` exactly when it is negative |
| Numbers.NumberTextRoundTrip | src/pages/Import.tsx:235 | `Number(String(v))` is `v` for every number with at most 20 decimal places |
| Numbers.ParseIntStopsAtNonDigit | src/components/VehicleCard.tsx:91 | `parseInt` stops at the first non-digit and keeps the number before it |
| Numbers.ParseDigits | src/lib/googleSheetsApi.ts:288 | a string of digits is read as its integer by both `parseFloat` and `Number` |
| Numbers.NumberOfDecimal | src/lib/googleSheetsApi.ts:288 | `a.b` of digits is read as the decimal by both `parseFloat` and `Number` |
| Numbers.NumberOfNatToString | src/components/VehicleFormModal.tsx:35 | a written natural number is read back by both `parseFloat` and `Number`, and by `Number` with a minus sign as its negation |
| Numbers.NumberOfRejectsTrailing | src/pages/Dashboard.tsx:86 | `Number("12abc")` is not a number where `parseFloat` reads 12 |
| Numbers.NotANumber | src/components/VehicleFormModal.tsx:35 | a lone sign, a lone point or the empty text is not a number |
| Numbers.DigitsValueNatToString | src/components/VehicleFormModal.tsx:45 | the digits of a written natural number have its value |
| VehicleAnalysis.ParseAmount | src/pages/VehicleAnalysis.tsx:91-99 | a number is returned as it is; a missing value or the empty text gives 0 |
| VehicleAnalysis.ParseGrouped | src/pages/VehicleAnalysis.tsx:95-96 | a trimmed European-formatted text is read without its dots and with its first comma as the decimal point, 0 when that is not a number |
| VehicleAnalysis.GroupedDigits | src/pages/VehicleAnalysis.tsx:95-96 | a European text whose separators leave only digits is read as that integer |
| VehicleAnalysis.ThousandsSeparator | src/pages/VehicleAnalysis.tsx:95-96 | `a.bbb` is read as the integer `abbb`, where `Number` would read the decimal `a.bbb` |
| VehicleAnalysis.GroupedDecimal | src/pages/VehicleAnalysis.tsx:95-96 | a European text with no dots whose comma rewrites to `a.b` is read as the decimal `a.b` |
| VehicleAnalysis.DecimalComma | src/pages/VehicleAnalysis.tsx:95-96 | `a,b` is read as the decimal `a.b` |
| VehicleAnalysis.CollectYearMonths | src/pages/VehicleAnalysis.tsx:111-116 | the loop computes the set of months of each year carried by the rows |
| VehicleAnalysis.YearMonthsSpec | src/pages/VehicleAnalysis.tsx:111-116 | a year lists a month exactly when some row of that year carries that month |
| VehicleAnalysis.YearMonthsLast | src/pages/VehicleAnalysis.tsx:112-115 | the last row adds its month to its year and changes nothing else |
| VehicleAnalysis.KeepIff | src/pages/VehicleAnalysis.tsx:118-124 | a row is kept exactly when its year has an annual row and it is annual, or its year has none and its month is 1 to 12 |
| VehicleAnalysis.DeduplicatedRows | src/pages/VehicleAnalysis.tsx:118-124 | the surviving rows are rows of the input, annual in a year with an annual row and monthly 1 to 12 otherwise, and every row the filter keeps survives |
| VehicleAnalysis.NoAnnualMonthlyMix | src/pages/VehicleAnalysis.tsx:118-124 | within one year the surviving rows are all annual or all monthly |
| VehicleAnalysis.ExpenseRecord | src/pages/VehicleAnalysis.tsx:126-137 | the record carries the row's year and concept and the absolute value of its parsed amount |
| VehicleAnalysis.ExpenseRecords | src/pages/VehicleAnalysis.tsx:126-137 | one record per surviving row, in order |
| VehicleAnalysis.CostsArePositive | src/pages/VehicleAnalysis.tsx:104-108 | every classified cost has a positive amount |
| VehicleAnalysis.UncodedTakesDefaults | src/pages/VehicleAnalysis.tsx:133-135 | a concept without an 8-digit code is unclassified and takes INDIRECTO, FIJO and General |
| VehicleAnalysis.ActiveOf | src/pages/VehicleAnalysis.tsx:155-190 | a vehicle is dropped exactly when it is acquired after the year or sold before it; otherwise its coefficient is the shared activity coefficient, between 1/12 and 1, its kilometres those of the year, and its income its matched monthly income |
| VehicleAnalysis.ActiveVehicles | src/pages/VehicleAnalysis.tsx:155-190 | there are at most as many active vehicles as vehicles, each with a coefficient between 1/12 and 1 |
| VehicleAnalysis.AmortisationPools | src/pages/VehicleAnalysis.tsx:203-204 | no account is in both amortisation pools, and a fleet account is in neither |
| VehicleAnalysis.DivideByZero | src/pages/VehicleAnalysis.tsx:232 | a division by 0 is never finite: `NaN` exactly for `0 / 0`, otherwise the infinity of the dividend's sign |
| VehicleAnalysis.BreakEvenPoint | src/pages/VehicleAnalysis.tsx:232 | 0 without income; when the variable costs equal the income, the fixed costs divided by 0 (`NaN` without fixed costs, otherwise the infinity of their sign); otherwise the finite point `p` with `p (income - variable) = fixed income` |
| VehicleAnalysis.BreakEvenAgrees | src/pages/VehicleAnalysis.tsx:232 | below the income it is the cost analysis page's break-even |
| VehicleAnalysis.BreakEvenNegative | src/pages/VehicleAnalysis.tsx:232 | above the income a positive fixed cost gives a negative point, where the cost analysis page shows 0 |
| VehicleAnalysis.MetricsOf | src/pages/VehicleAnalysis.tsx:206-244 | the routed costs, the four shares by time and the two by kilometres; total costs are fixed plus variable, the result is income minus total costs, and with kilometres the cost per kilometre times the kilometres is the total cost |
| VehicleAnalysis.FieldValue | src/pages/VehicleAnalysis.tsx:248 | every key but the sale value holds a number, finite except the break-even point |
| VehicleAnalysis.Plus | src/pages/VehicleAnalysis.tsx:249 | JavaScript addition: finite exactly when both operands are, and then their sum; `NaN` exactly when an operand is `NaN` or the operands are opposite infinities; an infinite result is the infinite operand |
| VehicleAnalysis.OrZeroNum | src/pages/VehicleAnalysis.tsx:249 | `totals[key] \|\| 0`: an absent or `NaN` running total reads as 0, any other as itself |
| VehicleAnalysis.FleetTotals | src/pages/VehicleAnalysis.tsx:246-253 | the reduce computes, for each key, the fold of the vehicles' values, where each step adds to the running total or 0 when that is absent or `NaN` |
| VehicleAnalysis.AddVehicleValues | src/pages/VehicleAnalysis.tsx:247-251 | the inner loop adds one vehicle's values key by key, each to the running total or to 0 when that is absent or `NaN`, and leaves keys without a number alone |
| VehicleAnalysis.AddVehicleEntry | src/pages/VehicleAnalysis.tsx:247-251 | over distinct keys each listed key is stepped once and the others stay |
| VehicleAnalysis.AllKeysDistinct | src/pages/VehicleAnalysis.tsx:237-243 | every key of a vehicle's entry is listed, once |
| VehicleAnalysis.KeyTotalsEntry | src/pages/VehicleAnalysis.tsx:246-253 | the totals hold, for each key, the fold over the vehicles |
| VehicleAnalysis.KeyTotalPresent | src/pages/VehicleAnalysis.tsx:248-249 | a key has a total exactly when some vehicle has a number there |
| VehicleAnalysis.KeyTotalFinite | src/pages/VehicleAnalysis.tsx:249 | with every value finite the total is the column sum, and no total means a zero sum |
| VehicleAnalysis.KeyTotalForgetsNaN | src/pages/VehicleAnalysis.tsx:249 | `NaN \|\| 0` is 0: once the total of the first vehicles is `NaN`, the fleet total is that of the later vehicles when one of them has a number, and stays `NaN` otherwise |
| VehicleAnalysis.KeyTotalInfinite | src/pages/VehicleAnalysis.tsx:249 | with every value absent, finite or one same infinity, one vehicle with that infinity makes the fleet total that infinity |
| VehicleAnalysis.FleetTotalsSpec | src/pages/VehicleAnalysis.tsx:246-253 | a key is present exactly when some vehicle has a number there; its total is the column sum when all values are finite, and it is not finite only when some vehicle's value is not |
| VehicleAnalysis.AnalysisData | src/pages/VehicleAnalysis.tsx:147-256 | one entry per active vehicle, and the totals are the per-key totals of those entries |
| VehicleAnalysis.ActivesHaveTime | src/pages/VehicleAnalysis.tsx:192-195 | when some vehicle is active the total coefficient is positive |
| VehicleAnalysis.ShareColumns | src/pages/VehicleAnalysis.tsx:246-253 | the totals' share columns are the sums of the vehicles' shares |
| VehicleAnalysis.TimePoolConserved | src/pages/VehicleAnalysis.tsx:215-224 | a pool shared by coefficient adds up to the pool |
| VehicleAnalysis.KmsPoolConserved | src/pages/VehicleAnalysis.tsx:216-219 | a pool shared by kilometres adds up to the pool once kilometres were driven |
| VehicleAnalysis.FixedSharesConserved | src/pages/VehicleAnalysis.tsx:215-224 | the general direct fixed, indirect fixed, intangible and tangible pools are shared out completely |
| VehicleAnalysis.VariableSharesConserved | src/pages/VehicleAnalysis.tsx:216-219 | with kilometres driven, the general direct and indirect variable pools are shared out completely |
| VehicleAnalysis.VariableSharesLost | src/pages/VehicleAnalysis.tsx:216-219 | without kilometres every variable share is 0 and the variable pools reach no vehicle |
| VehicleAnalysis.KmsColumn | src/pages/VehicleAnalysis.tsx:246-253 | the kilometres column of the figures is the active vehicles' kilometres |
| VehicleAnalysis.FiniteKeyTotal | src/pages/VehicleAnalysis.tsx:246-253 | a key every vehicle has as a finite number totals to its column sum |
| VehicleAnalysis.TotalsConserveTimePools | src/pages/VehicleAnalysis.tsx:215-253 | the totals row carries each pool shared by time exactly |
| VehicleAnalysis.TotalsConserveKmsPools | src/pages/VehicleAnalysis.tsx:216-253 | the totals row carries the kilometres, and, once any were driven, each pool shared by kilometres exactly |
| VehicleAnalysis.ReportConservesPools | src/pages/VehicleAnalysis.tsx:147-256 | on the page's report with an active vehicle, the totals carry every time pool exactly, and every kilometre pool once kilometres were driven |
| VehicleAnalysis.SumFilterSnoc | src/pages/VehicleAnalysis.tsx:198-213 | one more cost adds its amount to a filtered sum exactly when it passes the filter |
| VehicleAnalysis.RoutedIndirectCountedTwice | src/pages/VehicleAnalysis.tsx:200-209 | an indirect cost routed to a plate adds to both that vehicle's routed costs and the indirect pool |
| VehicleAnalysis.UnroutedPoolsUnchanged | src/pages/VehicleAnalysis.tsx:198-213 | a direct cost not routed to General leaves the pools unchanged |
| VehicleAnalysis.OtherPlateUnchanged | src/pages/VehicleAnalysis.tsx:208-209 | a cost routed elsewhere leaves a plate's routed costs unchanged |
| VehicleAnalysis.UnroutedDirectDropped | src/pages/VehicleAnalysis.tsx:208-213 | a direct cost routed to neither General nor an active plate changes no vehicle's figures |
| VehicleCard.AllYears | src/components/VehicleCard.tsx:15-17 | the years are strictly descending and are exactly the default years and the vehicle's own |
| VehicleCard.Applied | src/pages/FleetManagement.tsx:79-88 | the page sets the year's kilometres and changes nothing else of the vehicle |
| VehicleCard.RemoveKeepsYear | src/components/VehicleCard.tsx:32-36 | removing a year stores 0 under it: the year stays listed and can be added again |
| VehicleCard.AddedYearNotAgain | src/components/VehicleCard.tsx:22-26 | once a year is stored with non-zero kilometres it cannot be added again |
| VehicleCard.VehicleCard.constructor | src/components/VehicleCard.tsx:19-20 | the inputs start at next year and 0 kilometres |
| VehicleCard.VehicleCard.SetNewYear | src/components/VehicleCard.tsx:91 | the year input becomes `parseInt(value)`; the kilometres input stays |
| VehicleCard.VehicleCard.SetNewKms | src/components/VehicleCard.tsx:92 | the kilometres input becomes `parseInt(value)`; the year input stays |
| VehicleCard.VehicleCard.AddKms | src/components/VehicleCard.tsx:22-30 | a set year without kilometres is sent with the kilometres input and the inputs reset; otherwise nothing is sent or changed |
| VehicleCard.VehicleCard.RemoveKms | src/components/VehicleCard.tsx:32-36 | the year is sent with 0 kilometres |
| VehicleCard.VehicleCard.EditKms | src/components/VehicleCard.tsx:83 | the year is sent with `parseInt(value)`, or 0 when that is not a number |
| VehicleForm.NumberInput | src/components/VehicleFormModal.tsx:35 | the parsed number, or 0 when the text is not a number |
| VehicleForm.Truncate | src/components/VehicleFormModal.tsx:35 | the integer part, rounded toward zero |
| VehicleForm.KmsInput | src/components/VehicleFormModal.tsx:39 | the parsed integer, or 0 when the text is not a number |
| VehicleForm.Initial | src/components/VehicleFormModal.tsx:15-21 | the vehicle being edited, or a blank Normal vehicle acquired today with no kilometres and no sale |
| VehicleForm.Changed | src/components/VehicleFormModal.tsx:33-36 | the edited field takes the text, or the parsed number for a number input; every other field stays |
| VehicleForm.WholeNumberKept | src/components/VehicleFormModal.tsx:35 | a whole number typed into an integer field is stored as it is |
| VehicleForm.KmsTextRoundTrip | src/components/VehicleFormModal.tsx:45 | `kmsValue.toString()` is read back as the number, and "NaN" as 0 |
| VehicleForm.RemoveUndoesAdd | src/components/VehicleFormModal.tsx:43-54 | a new year added and then removed leaves the kilometres as they were and can be added again |
| VehicleForm.VehicleForm.constructor | src/components/VehicleFormModal.tsx:23-25 | the form starts on the initial vehicle, this year and 0 kilometres |
| VehicleForm.VehicleForm.Change | src/components/VehicleFormModal.tsx:33-36 | the vehicle becomes the changed vehicle; the inputs stay |
| VehicleForm.VehicleForm.KmsChange | src/components/VehicleFormModal.tsx:38-41 | only that year's kilometres change |
| VehicleForm.VehicleForm.SetKmsYear | src/components/VehicleFormModal.tsx:133 | the year input becomes `parseInt(value)`; nothing else changes |
| VehicleForm.VehicleForm.SetKmsValue | src/components/VehicleFormModal.tsx:134 | the kilometres input becomes `parseInt(value)`; nothing else changes |
| VehicleForm.VehicleForm.AddKmsEntry | src/components/VehicleFormModal.tsx:43-49 | a set year without kilometres gets the kilometres input, 0 for NaN, and the inputs reset; otherwise nothing changes |
| VehicleForm.VehicleForm.RemoveKmsEntry | src/components/VehicleFormModal.tsx:51-54 | the year's key is deleted and nothing else changes |
| VehicleForm.VehicleForm.Submit | src/components/VehicleFormModal.tsx:56-60 | the vehicle is submitted with its licence plate as id and every other field as it is |

## Left out

**External calls and the environment**

- Every HTTP request (`apiRequest`, `fetch`, `configApi`) and the upsert loops that save to the sheet. A request's answer is a parameter.
- The Gemini OCR path of the import page (`callGeminiAPI`, `fileToBase64`).
- Workbook decoding (`xlsx`, `FileReader`). A financial sheet arrives as its matrix of cell texts; a fleet sheet arrives as its rows keyed by header.
- Asynchronous loading (`useEffect`, `Promise.all`), the loading and error flags, and `window.location.reload`.
- `alert`, `console.log`, and the messages of failed requests. The answers of `prompt` and `confirm` are parameters.
- The clock (`Date.now`, `new Date()`). The current time, date and year are parameters.

**Presentation**

- React rendering: charts (`chartData`, `pieData`), table layout, labels, and the ratio formula strings.
- Intl and locale formatting: `formatCurrency`, `formatNumber`, `formatPercentage`, `toFixed`, and `toISOString` in `dateToYyyyMmDd`.
- `typeIncome` in the dashboard's per-bus-type loop. It is accumulated but never read.

**Number and text semantics**

- IEEE floating point. Amounts are exact reals, so rounding is not modelled. `NaN` and the infinities are modelled only for the vehicle analysis break-even, which has no guard, and for the fleet totals that add it up.
- Numbers.NumberText: no exponent notation (for magnitudes of at least 1e21 or below 1e-6), and a fraction with more than 20 decimal places is cut after the 20th instead of written as the shortest text that reads back as the same double.
- Exponent notation, `Infinity` and hexadecimal text in `parseFloat`, `parseInt` and `Number`. Only the decimal grammar is modelled.
- Unicode case mapping in `toLowerCase` and `toUpperCase`. Only ASCII letters change case.
- A non-text concept: it makes the dashboard's `getConcept` throw. Concepts are modelled as text.
- Dashboard.GroupOf: a vehicle type that names a member of `Object.prototype` ("constructor", "toString", "valueOf", "__proto__" and the like) makes `vehiclesByType[type]` truthy but not an array, so `push` throws a TypeError and the bus-type table is not computed. The model treats such a type like any other unknown one: the vehicle joins no group and the table is computed without it. `Dashboard.GroupCounts`, `Dashboard.GroupByType` and `Dashboard.CostsByBusType` therefore state the table for fleets on which the source does not throw, and give a table where it throws.

**Dates**

- The engine's own parse of free-form date text (`new Date(text)`). It is a parameter.
- Dates.ParseDate: dates carry no time of day. The engine's parse of a text with a time, such as `2024/12/31 10:00`, keeps that time, so in the source that acquisition date is later than `new Date(2024, 11, 31)` and the vehicle is excluded from 2024. The `native` parameter can only return the calendar day, which is not later than 31 December, so the model keeps that vehicle active for one month. Only texts that neither date pattern matches reach this fallback.
- The Excel serial-number branch of the sheet's `formatDate`.

**Members that state less than the source does**

- Sheets.FromColumns: the source stores a text cell of a `kms_YYYY` or `value_YYYY` column as that text in the per-year map. The model's maps hold numbers, so such a cell is read as its `Number` value, or 0.
- Sheets.RowYear: a row whose `year` is a fraction of at least 2000 is skipped. The source files it under that fractional key; the model keys years by integers.
- Ledger.StudyYears: a P&L row whose `Number(year)` is a fraction above 2000 adds that fraction to the year list of both analysis pages. The model keys years by integers and `Domain.YearOf` reads a fraction as no year, so that year is not listed.
- CostAnalysis.RecordOf: an account row whose `Number(year)` is a fraction gets no year (`None`), so its cost is filed under no study year. The source files it under the fractional year, which its year list also holds.
- VehicleAnalysis.ExpenseRecord: the same as `CostAnalysis.RecordOf`: a P&L row with a fractional year gets no year, where the source keeps the fraction.
- VehicleForm.Changed: a fraction typed into the assigned number, seats or wheels is stored as its integer part (`VehicleForm.Truncate`), because those fields are integers in the model. The source stores the fraction.
- AmortizationForm.AccountForm.Submit: when an account is edited, the form's state is the page's own account object. The write of the current year's value therefore also reaches the page's list entry. The model updates the form's copy only.
- ImportExcel.Review.ChangeAmount, ImportExcel.Review.ChangeConcept, ImportExcel.Review.ChangeFleetField: these require an index within the list. The review table only passes the index of a row it shows. A write past the end, which would extend a JavaScript array, is not modelled.
- Fleet.FleetPage.UpdateKms: the figure is a number. The source can also store `NaN`, which the card's add-year row sends when its kilometre input holds no number. The model carries that `NaN` as `None` (`VehicleCard.KmsUpdate`) and never stores it, because kilometre maps hold numbers only.
