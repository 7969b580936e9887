/** The tenant's dashboard (src/components/tenant/TenantDashboard.tsx): the
    figures fetched for the signed-in tenant, the rent-due window, the
    rent-due alert and the badge of the pay-rent card. */
module TenantDashboard {
  import opened Collections
  import opened Records
  import RentPayments

  datatype DashboardStats = DashboardStats(
    assignment: Option<Assignment>,
    pendingRequests: nat,
    thisMonthRent: int,
    announcements: nat)

  /** The state before anything is fetched, and what a failed fetch leaves. */
  const InitialStats := DashboardStats(None, 0, 0, 0)

  /** The data of `.single()` and `.maybeSingle()`: the row when exactly one
      matches; otherwise no data (an error for two or more rows, and for no
      row in the case of `.single()`). */
  function OnlyRow<T>(rows: seq<T>): (r: Option<T>)
    ensures r.Some? <==> |rows| == 1
    ensures r.Some? ==> r.value == rows[0]
  {
    if |rows| == 1 then Some(rows[0]) else None
  }

  function ActiveOf(userId: string): Assignment -> bool
  {
    (a: Assignment) => a.tenantId == userId && a.isActive
  }

  function OpenRequestOf(userId: string): MaintenanceRequest -> bool
  {
    (r: MaintenanceRequest) => r.tenantId == userId && (r.status == Some("pending") || r.status == Some("in_progress"))
  }

  function PaidBy(userId: string, month: MonthKey): RentPayment -> bool
  {
    (p: RentPayment) => p.tenantId == userId && IsPaidIn(month)(p)
  }

  /** The tenant's paid rows of the current month. */
  function PaidThisMonth(payments: seq<RentPayment>, userId: string, month: MonthKey): seq<RentPayment>
  {
    Filter(payments, PaidBy(userId, month))
  }

  /** `payment?.amount || 0` over `.maybeSingle()`: the amount of the only
      paid row of the month, 0 when there are none or several. */
  function ThisMonthRentAsWritten(rows: seq<RentPayment>): (r: int)
    ensures |rows| == 1 ==> r == rows[0].amount
    ensures |rows| != 1 ==> r == 0
  {
    match OnlyRow(rows)
    case None => 0
    case Some(p) => p.amount
  }

  /** What the tenant has paid towards the month: the sum of the paid rows. */
  function ThisMonthRent(rows: seq<RentPayment>): (r: int)
    ensures |rows| == 1 ==> r == rows[0].amount
    ensures rows == [] ==> r == 0
  {
    assert |rows| == 1 ==> rows == [rows[0]] + [];
    if |rows| == 1 then SumOfCons(rows[0], [], AmountOf); TotalAmount(rows)
    else TotalAmount(rows)
  }

  /** Two paid rows of one month, as a part payment followed by the manual
      payment of the rest produces them, read as nothing paid: the dashboard
      then shows the rent-due alert and a "Pending" badge. */
  lemma SplitPaymentReadsAsUnpaid(userId: string, houseId: string, month: MonthKey, day: int)
    requires 1 <= day <= 5
    ensures var rows := [RentPayment(userId, houseId, 3000, None, None, None, month, Some("paid")),
                         RentPayment(userId, houseId, 2000, Some("manual"), None, None, month, Some("paid"))];
      ThisMonthRentAsWritten(rows) == 0 && ThisMonthRent(rows) == 5000 &&
      ShowRentDueAlert(day, DashboardStats(None, 0, ThisMonthRentAsWritten(rows), 0)) &&
      PayRentBadge(DashboardStats(None, 0, ThisMonthRentAsWritten(rows), 0)) == "Pending"
  {
    var rows := [RentPayment(userId, houseId, 3000, None, None, None, month, Some("paid")),
                 RentPayment(userId, houseId, 2000, Some("manual"), None, None, month, Some("paid"))];
    assert rows == [rows[0]] + ([rows[1]] + []);
    SumOfCons(rows[1], [], AmountOf);
    SumOfCons(rows[0], [rows[1]], AmountOf);
  }

  /** With no negative payment, the month's figure is positive exactly when
      some paid row has a positive amount, however many rows there are. */
  lemma {:induction false} ThisMonthRentPositiveIffSomePayment(rows: seq<RentPayment>)
    requires forall p :: p in rows ==> p.amount >= 0
    ensures ThisMonthRent(rows) > 0 <==> exists p :: p in rows && p.amount > 0
    ensures ThisMonthRent(rows) >= 0
  {
    if rows != [] {
      ThisMonthRentPositiveIffSomePayment(rows[1..]);
      assert forall p :: p in rows[1..] ==> p in rows;
      assert forall p :: p in rows ==> p == rows[0] || p in rows[1..];
    }
  }

  /** `fetchStats`: each query result is `None` when the query gave no data.
      The month's rent is read as written, through `.maybeSingle()`. */
  function FetchStats(userId: string, month: MonthKey,
                      assignments: Option<seq<Assignment>>,
                      requests: Option<seq<MaintenanceRequest>>,
                      payments: Option<seq<RentPayment>>,
                      announcementsActive: Option<seq<bool>>): (s: DashboardStats)
    ensures assignments.None? ==> s.assignment.None?
    ensures s.assignment.Some? ==> s.assignment.value.tenantId == userId && s.assignment.value.isActive
    ensures s.assignment.Some? <==> assignments.Some? && |Filter(assignments.value, ActiveOf(userId))| == 1
    ensures assignments.Some? && |Filter(assignments.value, ActiveOf(userId))| == 1 ==>
      s.assignment == Some(Filter(assignments.value, ActiveOf(userId))[0])
    ensures requests.None? ==> s.pendingRequests == 0
    ensures requests.Some? ==> s.pendingRequests == |Filter(requests.value, OpenRequestOf(userId))| <= |requests.value|
    ensures payments.None? ==> s.thisMonthRent == 0
    ensures payments.Some? && |PaidThisMonth(payments.value, userId, month)| == 1 ==>
      s.thisMonthRent == PaidThisMonth(payments.value, userId, month)[0].amount
    ensures payments.Some? && |PaidThisMonth(payments.value, userId, month)| != 1 ==> s.thisMonthRent == 0
    ensures announcementsActive.None? ==> s.announcements == 0
    ensures announcementsActive.Some? ==> s.announcements == |Filter(announcementsActive.value, (b: bool) => b)|
  {
    var assignment := if assignments.Some? then OnlyRow(Filter(assignments.value, ActiveOf(userId))) else None;
    assert assignment.Some? ==> assignment.value in Filter(assignments.value, ActiveOf(userId));
    DashboardStats(
      assignment,
      if requests.Some? then |Filter(requests.value, OpenRequestOf(userId))| else 0,
      if payments.Some? then ThisMonthRentAsWritten(PaidThisMonth(payments.value, userId, month)) else 0,
      if announcementsActive.Some? then |Filter(announcementsActive.value, (b: bool) => b)| else 0)
  }

  /** The fetch with the month's rent read as the sum of the paid rows; every
      other figure is the one `FetchStats` reads. */
  function FetchStatsCorrected(userId: string, month: MonthKey,
                               assignments: Option<seq<Assignment>>,
                               requests: Option<seq<MaintenanceRequest>>,
                               payments: Option<seq<RentPayment>>,
                               announcementsActive: Option<seq<bool>>): (s: DashboardStats)
    ensures var w := FetchStats(userId, month, assignments, requests, payments, announcementsActive);
      s.assignment == w.assignment && s.pendingRequests == w.pendingRequests && s.announcements == w.announcements
    ensures payments.None? ==> s.thisMonthRent == 0
    ensures payments.Some? && |PaidThisMonth(payments.value, userId, month)| <= 1 ==>
      s.thisMonthRent == FetchStats(userId, month, assignments, requests, payments, announcementsActive).thisMonthRent
  {
    FetchStats(userId, month, assignments, requests, payments, announcementsActive).(
      thisMonthRent := if payments.Some? then ThisMonthRent(PaidThisMonth(payments.value, userId, month)) else 0)
  }

  /** With every query empty-handed the stats are the initial ones. */
  lemma FailedQueriesGiveDefaults(userId: string, month: MonthKey)
    ensures FetchStats(userId, month, None, None, None, None) == InitialStats
  {
  }

  /** The request count is of the tenant's requests that are pending or in
      progress: adding a request in any other state does not change it. */
  lemma OtherRequestsNotCounted(userId: string, month: MonthKey, assignments: Option<seq<Assignment>>,
                                requests: seq<MaintenanceRequest>, payments: Option<seq<RentPayment>>,
                                announcementsActive: Option<seq<bool>>, r: MaintenanceRequest)
    requires r.tenantId != userId || (r.status != Some("pending") && r.status != Some("in_progress"))
    ensures FetchStats(userId, month, assignments, Some(requests + [r]), payments, announcementsActive).pendingRequests ==
            FetchStats(userId, month, assignments, Some(requests), payments, announcementsActive).pendingRequests
  {
    FilterConcat(requests, [r], OpenRequestOf(userId));
    assert Filter([r], OpenRequestOf(userId)) == [];
  }

  /** `isRentDue`: the first five days of the month. */
  predicate IsRentDue(day: int)
  {
    day >= 1 && day <= 5
  }

  /** The due window is the classifier's grace window: on a day of rent due,
      an unpaid current month is plain "pending" without a fee, and on any
      other day it is not. */
  lemma RentDueIsGraceWindow(today: Date)
    ensures IsRentDue(today.day) <==>
      RentPayments.GetPaymentStatus(MonthOf(today), today, None) ==
        Some(RentPayments.StatusInfo(RentPayments.Pending, Secondary, 0))
  {
    RentPayments.CurrentMonthUnpaid(today);
  }

  /** The red "Rent Due!" card: shown only on a day of rent due, and then
      exactly when nothing is recorded for the month; never beside a "Paid"
      badge. */
  function ShowRentDueAlert(day: int, s: DashboardStats): (shown: bool)
    ensures !IsRentDue(day) ==> !shown
    ensures IsRentDue(day) ==> (shown <==> s.thisMonthRent == 0)
    ensures shown ==> PayRentBadge(s) == "Pending"
  {
    IsRentDue(day) && s.thisMonthRent == 0
  }

  /** The badge of the pay-rent card. */
  function PayRentBadge(s: DashboardStats): (b: string)
    ensures b == "Paid" <==> s.thisMonthRent > 0
    ensures b == "Pending" <==> s.thisMonthRent <= 0
  {
    if s.thisMonthRent > 0 then "Paid" else "Pending"
  }

  /** The alert never shows beside a "Paid" badge, and a tenant whose month
      holds exactly one paid row, of a positive amount, sees no alert. */
  lemma AlertOnlyWhenPending(day: int, userId: string, month: MonthKey, payments: seq<RentPayment>,
                             assignments: Option<seq<Assignment>>, requests: Option<seq<MaintenanceRequest>>,
                             announcementsActive: Option<seq<bool>>)
    ensures var s := FetchStats(userId, month, assignments, requests, Some(payments), announcementsActive);
      (ShowRentDueAlert(day, s) ==> PayRentBadge(s) == "Pending") &&
      (|PaidThisMonth(payments, userId, month)| == 1 && PaidThisMonth(payments, userId, month)[0].amount > 0 ==>
        !ShowRentDueAlert(day, s))
  {
  }

  /** As written, two paid rows of one month (a part payment and the manual
      payment of the rest) bring the alert back on the days of rent due,
      where the corrected fetch reads the month as paid. */
  lemma SplitPaymentShowsAlert(day: int, userId: string, houseId: string, month: MonthKey,
                               assignments: Option<seq<Assignment>>, requests: Option<seq<MaintenanceRequest>>,
                               announcementsActive: Option<seq<bool>>)
    requires 1 <= day <= 5
    ensures var rows := [RentPayment(userId, houseId, 3000, None, None, None, month, Some("paid")),
                         RentPayment(userId, houseId, 2000, Some("manual"), None, None, month, Some("paid"))];
      ShowRentDueAlert(day, FetchStats(userId, month, assignments, requests, Some(rows), announcementsActive)) &&
      !ShowRentDueAlert(day, FetchStatsCorrected(userId, month, assignments, requests, Some(rows), announcementsActive))
  {
    var rows := [RentPayment(userId, houseId, 3000, None, None, None, month, Some("paid")),
                 RentPayment(userId, houseId, 2000, Some("manual"), None, None, month, Some("paid"))];
    var paid := PaidBy(userId, month);
    assert IsPaidIn(month)(rows[0]) && IsPaidIn(month)(rows[1]);
    assert paid(rows[0]) && paid(rows[1]);
    assert rows[1..] == [rows[1]] && rows[1..][1..] == [];
    assert Filter([rows[1]], paid) == [rows[1]] + Filter([], paid);
    assert Filter(rows, paid) == [rows[0]] + Filter([rows[1]], paid);
    assert rows == [rows[0]] + ([rows[1]] + []);
    SumOfCons(rows[1], [], AmountOf);
    SumOfCons(rows[0], [rows[1]], AmountOf);
    assert FetchStatsCorrected(userId, month, assignments, requests, Some(rows), announcementsActive).thisMonthRent
           == ThisMonthRent(rows) == 5000;
  }

  /** With no negative payment, the corrected fetch never shows the alert
      beside a "Paid" badge, and shows no alert once any positive payment of
      the month exists, however many rows it is split into. */
  lemma CorrectedAlertOnlyWhenUnpaid(day: int, userId: string, month: MonthKey, payments: seq<RentPayment>,
                                     assignments: Option<seq<Assignment>>, requests: Option<seq<MaintenanceRequest>>,
                                     announcementsActive: Option<seq<bool>>)
    requires forall p :: p in payments ==> p.amount >= 0
    ensures var s := FetchStatsCorrected(userId, month, assignments, requests, Some(payments), announcementsActive);
      (ShowRentDueAlert(day, s) ==> PayRentBadge(s) == "Pending") &&
      ((exists p :: p in PaidThisMonth(payments, userId, month) && p.amount > 0) ==> !ShowRentDueAlert(day, s))
  {
    ThisMonthRentPositiveIffSomePayment(PaidThisMonth(payments, userId, month));
  }
}
