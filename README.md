# Rent and occupancy logic of kwa-space-manager, in Dafny

kwa-space-manager is a property-management web app for one building of rented
rooms. Admins manage houses (rooms), assign tenants to them, record rent and
watch who has not paid. Tenants see their rent history, pay rent and file
maintenance requests. This project models the logic inside the app's screens.
The React rendering and the database transport are left out. The logic covered:

- the rent status of a month: paid, late with a KSh 200 penalty, pending or overdue;
- the months a tenant's rent history lists;
- the monthly collection figures and the list of unpaid tenants;
- the admin's rent summary and the payment form;
- the tenant and admin dashboards;
- assigning and unassigning tenants, and the occupancy invariant those writes keep;
- the house searches and the grouping by floor and section;
- maintenance requests.

Tables are sequences of rows (`Records`). The database is `Records.Store`, a
class whose `seq` fields the write operations reassign. A query is modelled as
a `Filter` over a table, or as its result passed in as a parameter. `None`
stands for a query that returned no data. Each write step that can fail is a
`bool` parameter, and the model follows what the code does when that step
fails. Months are `MonthKey(year, month)` values rather than `"YYYY-MM"` strings.

Modules, one per screen file plus four shared ones:

| module | file |
|---|---|
| `Collections` | filter, map, find, sum and subsequence lemmas |
| `Text` | ASCII `toLowerCase`/`toUpperCase` and `includes` |
| `Decimal` | `Number.prototype.toString` and `parseInt`, with their round trip |
| `Records` | the rows of `src/integrations/supabase/types.ts` and the `Store` |
| `RentPayments` | `src/components/tenant/RentPayments.tsx` |
| `UnpaidTenantsTracker` | `src/components/admin/UnpaidTenantsTracker.tsx` |
| `MonthlyRentTracker` | `src/components/admin/MonthlyRentTracker.tsx` |
| `RentManagement` | `src/components/admin/RentManagement.tsx` |
| `TenantDashboard` | `src/components/tenant/TenantDashboard.tsx` |
| `TenantsManagement` | `src/components/admin/TenantsManagement.tsx` |
| `AdminDashboard` | `src/components/admin/AdminDashboard.tsx` |
| `HouseSearch` | `src/components/home/HouseSearch.tsx` |
| `HousesManagement` | `src/components/admin/HousesManagement.tsx` |
| `MaintenanceRequests` | `src/components/tenant/MaintenanceRequests.tsx` |

## Model

| member | source | states |
|---|---|---|
| RentPayments.GetPaymentStatus | src/components/tenant/RentPayments.tsx:83-124 | There is no status exactly when the month is after today's month. Otherwise the 200 penalty is charged exactly for late, pending (late) and overdue. |
| RentPayments.PaymentDayDecides | src/components/tenant/RentPayments.tsx:94-103 | With a payment, days 1-5 and 10 onwards are paid without penalty. Days 6-9 are late with the 200 penalty. |
| RentPayments.PaymentAfterNinthCarriesNoFee | src/components/tenant/RentPayments.tsx:94-103 | As written, a payment on day 10 or later is "paid" without penalty. The guidelines card charges the penalty for it. |
| RentPayments.PaidMonthStatus | src/components/tenant/RentPayments.tsx:295-306 | The guidelines card's classification of a paid month: no penalty iff paid by day 5, and the penalty comes with a destructive badge. |
| RentPayments.PaidMonthStatusDiffersFromTenth | src/components/tenant/RentPayments.tsx:94-103 | The card's classification agrees with the code exactly up to day 9, and charges the penalty iff the day is 6 or later. |
| RentPayments.CurrentMonthUnpaid | src/components/tenant/RentPayments.tsx:106-117 | The current month unpaid is pending through day 5, pending (late) with the penalty on days 6-9, and overdue from day 10. |
| RentPayments.PastMonthUnpaidIsOverdue | src/components/tenant/RentPayments.tsx:118-121 | A past month without a payment is overdue with the penalty. |
| RentPayments.PendingOnlyInCurrentMonth | src/components/tenant/RentPayments.tsx:83-124 | Plain "pending" arises only for the current month, without a payment, on days 1-5. |
| RentPayments.StatusColor | src/components/tenant/RentPayments.tsx:68-81 | The badge is destructive exactly for "late" and "overdue", and default exactly for "paid". |
| RentPayments.StatusColorAgreesWithClassifier | src/components/tenant/RentPayments.tsx:68-124 | Recolouring a status by its label gives the classifier's own colour for every status except "pending (late)". |
| RentPayments.LastMonthNotFuture | src/components/tenant/RentPayments.tsx:143-144 | Every month up to the loop's end month is not in the future. |
| RentPayments.MonthList | src/components/tenant/RentPayments.tsx:126-162 | The list is empty without an assignment date, and also for a year before the assignment. It runs from the end month down to the start month; its length is that range; every entry is in the year, not future, and built from the month's payment. |
| RentPayments.MonthListNewestFirst | src/components/tenant/RentPayments.tsx:161 | Earlier entries are strictly later months, so no month appears twice. |
| RentPayments.MonthListed | src/components/tenant/RentPayments.tsx:126-162 | A month is listed if and only if it lies between the start month and December of an assigned year and is not in the future. |
| RentPayments.GenerateMonthsFromAssignment | src/components/tenant/RentPayments.tsx:126-162 | The loop followed by the reversal yields exactly `MonthList`. |
| UnpaidTenantsTracker.PaidByNonPayer | src/components/admin/UnpaidTenantsTracker.tsx:73-75 | A tenant with no payment row has paid 0. |
| UnpaidTenantsTracker.LookupIsPaidBy | src/components/admin/UnpaidTenantsTracker.tsx:66-75 | `paymentMap.get(t) \|\| 0` is the sum of that tenant's paid rows. |
| UnpaidTenantsTracker.BuildPaymentMap | src/components/admin/UnpaidTenantsTracker.tsx:66-70 | The `forEach` loop builds a map with one key per paying tenant, holding that tenant's total. |
| UnpaidTenantsTracker.PaymentMapConserves | src/components/admin/UnpaidTenantsTracker.tsx:66-70 | The per-tenant totals add up to the month's total. |
| UnpaidTenantsTracker.PerTenantTotalsConserve | src/components/admin/UnpaidTenantsTracker.tsx:66-70 | Summing per-tenant totals over the distinct payers gives the total of all rows. |
| UnpaidTenantsTracker.OrElse | src/components/admin/UnpaidTenantsTracker.tsx:82-85 | `text \|\| fallback`: the text when it is present and non-empty, otherwise the fallback. |
| UnpaidTenantsTracker.UnpaidTenants | src/components/admin/UnpaidTenantsTracker.tsx:73-92 | Every listed entry has a positive outstanding amount, paid + outstanding = expected, and paid is the tenant's map total. |
| UnpaidTenantsTracker.ListedIffUnderpaid | src/components/admin/UnpaidTenantsTracker.tsx:73-77 | An assignment is listed if and only if its tenant paid less than its house price. |
| UnpaidTenantsTracker.UnpaidInAssignmentOrder | src/components/admin/UnpaidTenantsTracker.tsx:73-92 | The list keeps the order of the assignments. |
| UnpaidTenantsTracker.NoHouseNeverListed | src/components/admin/UnpaidTenantsTracker.tsx:75 | An assignment without a house expects 0 and is never listed, given no negative payment. |
| UnpaidTenantsTracker.FetchUnpaidTenants | src/components/admin/UnpaidTenantsTracker.tsx:40-98 | The result is the unpaid list over the month's paid rows, and each entry's paid amount is what its tenant paid that month. |
| UnpaidTenantsTracker.ManualPayment | src/components/admin/UnpaidTenantsTracker.tsx:104-115 | The inserted row pays the outstanding amount for the entry's tenant and house in the month. It is "paid", by "manual", with reference "Manual entry for <name>". |
| UnpaidTenantsTracker.AddPayment | src/components/admin/UnpaidTenantsTracker.tsx:100-135 | A successful insert appends that row. A failed one changes nothing, and no other table changes. |
| UnpaidTenantsTracker.ManualPaymentSettles | src/components/admin/UnpaidTenantsTracker.tsx:100-124 | After the manual payment the tenant has paid exactly the expected amount and is no longer listed. |
| MonthlyRentTracker.FetchMonthlyStats | src/components/admin/MonthlyRentTracker.tsx:52-80 | Expected is the sum of house prices (0 without a house), paid is the sum of amounts, and remaining + paid = expected. Paying tenants are the distinct payers, at most the number of rows. |
| MonthlyRentTracker.OtherRowsDoNotCount | src/components/admin/MonthlyRentTracker.tsx:60-64 | A row of another month, or one that is not "paid", leaves the figures unchanged. |
| MonthlyRentTracker.StatusText | src/components/admin/MonthlyRentTracker.tsx:98-102 | "Complete" iff nothing remains; "Nearly Complete" iff something remains and at least 80% of assigned tenants paid; "Pending" otherwise. |
| MonthlyRentTracker.StatusColor | src/components/admin/MonthlyRentTracker.tsx:92-96 | Green, yellow and red under exactly the same three conditions. |
| MonthlyRentTracker.ColorTracksText | src/components/admin/MonthlyRentTracker.tsx:92-102 | The colour is a function of the text, and two stats have the same text iff they have the same colour. |
| MonthlyRentTracker.DisplayedRemaining | src/components/admin/MonthlyRentTracker.tsx:173 | `Math.max(0, remaining)` is 0 iff the status is "Complete" and equals remaining when something remains. |
| MonthlyRentTracker.NoAssignmentsIsComplete | src/components/admin/MonthlyRentTracker.tsx:52-80 | With no active assignment and no negative payment, the month is "Complete". |
| MonthlyRentTracker.OverpaymentIsComplete | src/components/admin/MonthlyRentTracker.tsx:72-99 | Once payments cover the expected total, the status is "Complete" and 0 is shown. |
| RentManagement.SumOfPrices | src/components/admin/RentManagement.tsx:175 | The `reduce` over `assignment.house.price` equals the expected total of the tracker. |
| RentManagement.SummaryOf | src/components/admin/RentManagement.tsx:174-178 | Received is the sum of the month's rows of any status, outstanding + received = expected, and the counts are the row counts. |
| RentManagement.ReceivedSplitsByStatus | src/components/admin/RentManagement.tsx:72-79 | The month's received total is the paid rows' total plus the other rows' total. |
| RentManagement.SummaryAgreesWithTracker | src/components/admin/RentManagement.tsx:174-178 | When every row of the month is "paid", the summary agrees with the monthly tracker's figures. |
| RentManagement.PaymentsCountAtLeastPayers | src/components/admin/RentManagement.tsx:177 | The payment count is never below the tracker's count of paying tenants. |
| RentManagement.StatusColor | src/components/admin/RentManagement.tsx:159-172 | The badge is destructive exactly for "pending" and "overdue", and default exactly for "paid". |
| RentManagement.StatusColorsDifferOnlyOnPendingAndLate | src/components/admin/RentManagement.tsx:159-172 | This screen and the tenant's rent history colour a status differently exactly for "pending" and "late". |
| RentManagement.Prefill | src/components/admin/RentManagement.tsx:280-288 | The amount is "" iff no assignment matches the pair; otherwise it parses back to the matched house's price. |
| RentManagement.NullIfEmpty | src/components/admin/RentManagement.tsx:127-128 | `s \|\| null`: null exactly for the empty text. |
| RentManagement.RowOf | src/components/admin/RentManagement.tsx:110-131 | Nothing is inserted when tenant, house or amount is empty. Otherwise the row is "paid", with the parsed amount and the form's tenant, house, month, method and reference. |
| RentManagement.PrefilledAmountIsRecorded | src/components/admin/RentManagement.tsx:280-288 | Picking an assignment and submitting records its house price for that tenant and house. |
| RentManagement.RentScreen.SelectTenantHouse | src/components/admin/RentManagement.tsx:280-288 | The form gets the pair and the prefilled amount; the rest of it is kept. |
| RentManagement.RentScreen.AddPayment | src/components/admin/RentManagement.tsx:110-157 | Missing fields or a failed insert change nothing. Success appends the row, resets the form to the current month and closes the dialog. |
| TenantDashboard.OnlyRow | src/components/tenant/TenantDashboard.tsx:69 | `.single()`/`.maybeSingle()` give data iff exactly one row matches. |
| TenantDashboard.ThisMonthRentAsWritten | src/components/tenant/TenantDashboard.tsx:78-86 | The amount of the only paid row of the month, and 0 when there are zero or several. |
| TenantDashboard.SplitPaymentReadsAsUnpaid | src/components/tenant/TenantDashboard.tsx:78-86 | Two paid rows of 3000 and 2000 read as 0 (their sum is 5000). On days 1-5 the "Rent Due!" alert shows and the badge says "Pending". |
| TenantDashboard.ThisMonthRent | src/components/tenant/TenantDashboard.tsx:78-97 | The corrected figure: the sum of the month's paid rows, equal to the only row's amount when there is one. |
| TenantDashboard.ThisMonthRentPositiveIffSomePayment | src/components/tenant/TenantDashboard.tsx:78-97 | With no negative amount, the corrected figure is positive iff some paid row is positive, and never negative. |
| TenantDashboard.FetchStats | src/components/tenant/TenantDashboard.tsx:57-104 | A failed query gives its default. The assignment is present iff the tenant has exactly one active row, and is then that row. The announcements figure is the number of active announcements. The request count is the tenant's pending or in-progress requests. The month's rent is the amount of the only paid row, and 0 when there are zero or several, as `.maybeSingle()` reads it. |
| TenantDashboard.FetchStatsCorrected | src/components/tenant/TenantDashboard.tsx:78-97 | The same figures with the month's rent read as the sum of its paid rows. This agrees with `FetchStats` whenever the month has at most one paid row. |
| TenantDashboard.FailedQueriesGiveDefaults | src/components/tenant/TenantDashboard.tsx:94-99 | With every query empty-handed the stats are the initial ones. |
| TenantDashboard.OtherRequestsNotCounted | src/components/tenant/TenantDashboard.tsx:72-76 | A request of another tenant, or one neither pending nor in progress, does not change the count. |
| TenantDashboard.RentDueIsGraceWindow | src/components/tenant/TenantDashboard.tsx:133 | Days 1-5 are exactly the days the rent history shows an unpaid current month as plain pending without penalty. |
| TenantDashboard.PayRentBadge | src/components/tenant/TenantDashboard.tsx:257-261 | "Paid" iff the month's figure is positive, otherwise "Pending". |
| TenantDashboard.ShowRentDueAlert | src/components/tenant/TenantDashboard.tsx:174 | The "Rent Due!" card shows only on days 1-5, and then exactly when the month's figure is 0; it never shows beside a "Paid" badge. |
| TenantDashboard.AlertOnlyWhenPending | src/components/tenant/TenantDashboard.tsx:174 | The alert never shows beside "Paid", and a month with exactly one paid row of positive amount shows no alert. |
| TenantDashboard.SplitPaymentShowsAlert | src/components/tenant/TenantDashboard.tsx:78-97 | Two paid rows of 3000 and 2000 make the alert show on days 1-5 as written, but not with the corrected fetch. |
| TenantDashboard.CorrectedAlertOnlyWhenUnpaid | src/components/tenant/TenantDashboard.tsx:174 | With the corrected fetch and no negative amount, the alert never shows beside "Paid". It never shows once any positive paid row of the month exists, however the payment is split. |
| TenantsManagement.ResolveAssignment | src/components/admin/TenantsManagement.tsx:75-78 | No assignment iff no row is active; otherwise the first active row of the tenant's rows, as `find` returns it. |
| TenantsManagement.Tenants | src/components/admin/TenantsManagement.tsx:56-79 | The list holds exactly the profiles with role "tenant", in their order, each with its current assignment. |
| TenantsManagement.EveryTenantListed | src/components/admin/TenantsManagement.tsx:56-79 | Every tenant-role profile appears with its current assignment, and the listed profiles are a subsequence of the profiles. |
| TenantsManagement.VacantHouses | src/components/admin/TenantsManagement.tsx:81-85 | Exactly the vacant houses. |
| TenantsManagement.FilteredTenants | src/components/admin/TenantsManagement.tsx:194-198 | Exactly the tenants whose name or email contains the term ignoring case, or whose phone contains it. |
| TenantsManagement.EmptySearchShowsTenantsWithContact | src/components/admin/TenantsManagement.tsx:194-198 | An empty term matches exactly the tenants with a name, email or phone. |
| TenantsManagement.NameSearchIgnoresCase | src/components/admin/TenantsManagement.tsx:195 | The name search gives the same answer for a term and its lower-case form. |
| TenantsManagement.FilteredTenantsInOrder | src/components/admin/TenantsManagement.tsx:194-198 | The filtered list keeps the order of the tenants. |
| TenantsManagement.CurrentIsTheActiveRow | src/components/admin/TenantsManagement.tsx:75-78 | With at most one active row per tenant, the tenant's current assignment is that row. |
| TenantsManagement.DeactivateTenant | src/components/admin/TenantsManagement.tsx:109-114 | Exactly the tenant's active rows become inactive. |
| TenantsManagement.DeactivatePair | src/components/admin/TenantsManagement.tsx:160-166 | Exactly the tenant's active rows for that house become inactive. |
| TenantsManagement.AssignHouse | src/components/admin/TenantsManagement.tsx:102-152 | The deactivation's error is ignored. The insert and the house update then run, and the result reports whether both succeeded. |
| TenantsManagement.AssignLeavesOneActive | src/components/admin/TenantsManagement.tsx:102-125 | After a fully successful assignment the tenant's only active row is the new one, and it is the current assignment. |
| TenantsManagement.IgnoredDeactivationLeavesTwo | src/components/admin/TenantsManagement.tsx:109-125 | If the deactivation fails silently, a tenant who had an active row ends up with two. |
| TenantsManagement.AssignKeepsOthers | src/components/admin/TenantsManagement.tsx:102-135 | Other tenants' rows and other houses are untouched. |
| TenantsManagement.DeactivateWithoutActive | src/components/admin/TenantsManagement.tsx:109-114 | Deactivating a tenant without an active row changes nothing. |
| TenantsManagement.AssignPreservesConsistency | src/components/admin/TenantsManagement.tsx:102-152 | The occupancy invariant is kept when a tenant with no active assignment gets a vacant house. The invariant: one active row per tenant and per house, and a house vacant iff no active row names it. |
| TenantsManagement.UnassignHouse | src/components/admin/TenantsManagement.tsx:154-192 | Nothing happens without a current assignment. Otherwise the pair's active row is deactivated, then the house is freed; the result reports whether both steps succeeded. |
| TenantsManagement.UnassignPreservesConsistency | src/components/admin/TenantsManagement.tsx:154-175 | Unassigning an active row keeps the invariant, leaves the tenant with no active row and leaves other tenants' rows unchanged. |
| AdminDashboard.FetchStats | src/components/admin/AdminDashboard.tsx:36-77 | Total is the number of houses, occupied and vacant count the non-vacant and vacant ones, and occupied + vacant = total. Tenants counts the profiles with role "tenant", and pending counts the "pending" requests. The revenue equals the tracker's paid total for the month. Each failed query gives 0. |
| AdminDashboard.NoPaymentsNoRevenue | src/components/admin/AdminDashboard.tsx:57-63 | With no paid row for the month, the revenue is 0. |
| AdminDashboard.OccupiedMeansAssigned | src/components/admin/AdminDashboard.tsx:64 | Under the occupancy invariant, the occupied houses are exactly the houses an active assignment names. |
| HouseSearch.InPriceBand | src/components/home/HouseSearch.tsx:79-87 | "under-5000" keeps prices below 5000, "5000-8000" keeps 5000 to 8000 inclusive, "over-8000" keeps prices above 8000, and any other value keeps every house. |
| HouseSearch.PriceBandsPartition | src/components/home/HouseSearch.tsx:81-86 | Each price is in exactly one of the three bands. |
| HouseSearch.FilterHouses | src/components/home/HouseSearch.tsx:64-91 | The three optional stages keep exactly the houses passing every active filter, in order. |
| HouseSearch.NoFiltersShowsAll | src/components/home/HouseSearch.tsx:64-91 | With no term and both selects on "all", every house is shown. |
| HouseSearch.FilteredInOrder | src/components/home/HouseSearch.tsx:64-91 | The shown houses keep the fetched order. |
| HouseSearch.StageOrderIrrelevant | src/components/home/HouseSearch.tsx:64-91 | Applying the stages in reverse order gives the same list. |
| HousesManagement.FilteredHouses | src/components/admin/HousesManagement.tsx:81-85 | Exactly the houses whose room name, floor or section contains the term, ignoring case. |
| HousesManagement.EmptySearchShowsAll | src/components/admin/HousesManagement.tsx:81-85 | An empty term shows every house. |
| HousesManagement.GroupHouses | src/components/admin/HousesManagement.tsx:87-92 | The `reduce` gives one group per occurring `floor - section` key, holding that key's houses in order, and keys in the order they were created. |
| HousesManagement.KeyOrder | src/components/admin/HousesManagement.tsx:87-92 | The key order lists each occurring key exactly once. |
| HousesManagement.KeyOrderIsFirstOccurrence | src/components/admin/HousesManagement.tsx:123 | `Object.entries` lays the sections out in the order of their first house: an earlier section has a house before every house of a later one. |
| HousesManagement.NoGroupEmpty | src/components/admin/HousesManagement.tsx:87-92 | No group is empty. |
| HousesManagement.EachHouseInOneGroup | src/components/admin/HousesManagement.tsx:87-92 | Each house is in its own key's group and no other, and every group is a subsequence of the houses. |
| HousesManagement.ToggleVacancy | src/components/admin/HousesManagement.tsx:56-79 | The house gets the opposite of the flag shown; a failed update changes nothing. |
| HousesManagement.ToggleFlips | src/components/admin/HousesManagement.tsx:56-61 | With the shown flag current, the house's flag flips, others are unchanged, and toggling twice restores the table. |
| MaintenanceRequests.NewRequest | src/components/tenant/MaintenanceRequests.tsx:109-119 | The inserted row is the tenant's, for the assignment's house, with the form's fields, and "pending". |
| MaintenanceRequests.NewRequestIsOpen | src/components/tenant/MaintenanceRequests.tsx:109-119 | A new request counts among the open requests on the tenant's dashboard. |
| MaintenanceRequests.RequestScreen.CreateRequest | src/components/tenant/MaintenanceRequests.tsx:88-147 | No assignment is refused first, then a missing title or type; a failed insert changes nothing. Success appends the row, resets the form and closes the dialog. |
| MaintenanceRequests.CancelIn | src/components/tenant/MaintenanceRequests.tsx:151-154 | Exactly the rows with the id become "cancelled"; others are unchanged. |
| MaintenanceRequests.CanCancel | src/components/tenant/MaintenanceRequests.tsx:363 | Cancel is offered iff the request is pending; such a request is open on the dashboard and wears the orange badge. |
| MaintenanceRequests.CancelClosesOnlyThatRequest | src/components/tenant/MaintenanceRequests.tsx:149-172 | A cancelled request offers no Cancel button and leaves the open count; other requests remain. |
| MaintenanceRequests.CancelRequest | src/components/tenant/MaintenanceRequests.tsx:149-172 | A successful update cancels the request; a failed one changes nothing. |
| MaintenanceRequests.StatusBadgeClass | src/components/tenant/MaintenanceRequests.tsx:34-39 | Unknown statuses and "cancelled" get the gray class; "pending" gets orange. |
| MaintenanceRequests.BadgeClassesDistinct | src/components/tenant/MaintenanceRequests.tsx:34-39 | Pending, in progress and completed get three different classes. |
| MaintenanceRequests.RequestTypeLabel | src/components/tenant/MaintenanceRequests.tsx:182-184 | Same length; the first character is upper-cased and every later '_' becomes a space, all else kept. |
| MaintenanceRequests.RequestTypeLabelNormal | src/components/tenant/MaintenanceRequests.tsx:182-184 | No '_' remains after the first character, and labelling a label changes nothing. |
| MaintenanceRequests.PestControlLabel | src/components/tenant/MaintenanceRequests.tsx:182-184 | The type "pest_control" is shown as "Pest control". |
| Decimal.ParseInt | src/components/admin/RentManagement.tsx:126 | Blank text, and text whose first visible character is neither a sign nor a digit, give `NaN`; a negative result needs a leading '-', and a leading digit gives a non-negative result. |
| Decimal.ParseIntOfIntToString | src/components/admin/RentManagement.tsx:126 | `parseInt` of a number's decimal text gives the number back. |
| Records.SetVacancy | src/components/admin/HousesManagement.tsx:58-61 | `update({is_vacant}).eq('id', id)` changes exactly that house's flag. |

## Left out

- Rendering, toasts, loading flags, `onUpdate`/`onStatsChange` callbacks and navigation are not modelled.
- Query transport is modelled as filters or parameters. `order(...)`, network errors other than the ones named, and the `loading` state are not modelled.
- A failed fetch keeps the previous screen state; the model has only the fetch's result.
- The clock and the database's column defaults (`payment_date`, `assigned_at`, new ids) are parameters. Time zones are not modelled, so the ISO (UTC) month of `toISOString()` and the local month of `new Date()` are the same month here.
- Month names from `toLocaleDateString` and number formatting from `toLocaleString` are left out.
- Case mapping is ASCII only; JavaScript's full Unicode `toLowerCase`/`toUpperCase` (including length-changing mappings) is not modelled.
- Amounts are integers. Floating-point rent amounts are not modelled, and neither is the percentage progress bar of the monthly tracker.
- MonthlyRentTracker.StatusText: the `0.8` threshold is written as `5 * paid >= 4 * assigned`, which agrees with the double computation for any realistic tenant count.
- Decimal.ParseInt: results are exact integers; values beyond 2^53, where a JavaScript number loses precision, and the `-0` result are not distinguished. Decimal.IntToString likewise leaves out the exponent form `Number.prototype.toString` uses from 1e21 on.
- TenantsManagement.AssignHouse: `assigned_by` (the admin's id from `supabase.auth.getUser()`) is not stored. Reassigning a tenant does not free their previous house, as in the code; the invariant is proved only when the tenant has no active assignment and the house is vacant.
- TenantsManagement.UnassignHouse: the current assignment is the screen's cached one, passed as a parameter.
- HousesManagement.ToggleVacancy: `currentStatus` is the flag the screen shows, passed as a parameter. It may be stale.
- RentManagement.SummaryOf: the summary reads `assignment.house.price` without a null check, so a missing house would crash the screen; the model requires every house present (`HousesPresent`).
- RentManagement.RentScreen.SelectTenantHouse: the select value joins ids with '|' and splits them again; ids containing '|' would split wrongly, and this is not modelled (ids are taken as given).
- HousesManagement.GroupHouses: two different floor/section pairs that produce the same `floor - section` text share a group, as in the code; no lemma separates them.
- TenantDashboard.FetchStats: the announcements table is modelled only by its `is_active` flags.
- MaintenanceRequests.StatusBadgeClass: the lookup on a plain object would also find inherited properties such as `constructor`; only the own keys and the fallback are modelled.
- The notification permission request, sign-out and the push-notification service worker are I/O and are not modelled.
- Files outside the screens listed above are not part of this model.

## Findings

The model follows the code as written (`TenantDashboard.FetchStats`, `RentPayments.GetPaymentStatus`). The corrected members stand beside it, with their intended property proved.

| source | as written | input that shows it | evidently intended | confidence | as-written member | corrected member |
|---|---|---|---|---|---|---|
| src/components/tenant/TenantDashboard.tsx:78-97 | `thisMonthRent` reads the month's paid payment with `.maybeSingle()`, which gives no data when two rows match, so the figure becomes 0 | A tenant pays 3000 of 5000, then an admin records the rest with the unpaid tracker's manual payment: two paid rows (3000 and 2000) in one month. On days 1-5 the dashboard shows "Rent Due!" and a "Pending" badge | the total of the month's paid rows (5000) | not executed | TenantDashboard.SplitPaymentShowsAlert | TenantDashboard.CorrectedAlertOnlyWhenUnpaid |
| src/components/tenant/RentPayments.tsx:94-103 | a payment made on day 10 or later is classified "paid" without penalty, while the guidelines card at line 305 of the same screen announces the KSh 200 penalty for any payment after the 9th | a payment dated the 12th of a past month shows "paid" with penalty 0 | the penalty for payments after the 9th, as the guidelines card says | not executed; code and on-screen text disagree, either may be the intended rule | RentPayments.PaymentAfterNinthCarriesNoFee | RentPayments.PaidMonthStatus |
