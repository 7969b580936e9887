/** The collection summary of one month (src/components/admin/MonthlyRentTracker.tsx):
    expected and collected totals over the active assignments and the month's
    paid payments, the number of distinct payers, and a three-way status. */
module MonthlyRentTracker {
  import opened Collections
  import opened Records

  datatype MonthlyRentStats = MonthlyRentStats(
    expectedTotal: int,
    paidTotal: int,
    remaining: int,
    assignedTenants: nat,
    paidTenants: nat)

  /** The figures `fetchMonthlyStats` computes from the active assignments
      (each with its house joined in) and the month's paid payments. */
  function FetchMonthlyStats(assignments: seq<AssignmentView>, paid: seq<RentPayment>): (s: MonthlyRentStats)
    ensures s.expectedTotal == SumOf(assignments, ExpectedOf)
    ensures s.paidTotal == TotalAmount(paid)
    ensures s.remaining + s.paidTotal == s.expectedTotal
    ensures s.assignedTenants == |assignments|
    ensures s.paidTenants == |TenantIds(paid)| && s.paidTenants <= |paid|
  {
    TenantIdsAtMostRows(paid);
    var expectedTotal := SumOf(assignments, ExpectedOf);
    var paidTotal := TotalAmount(paid);
    MonthlyRentStats(expectedTotal, paidTotal, expectedTotal - paidTotal, |assignments|, |TenantIds(paid)|)
  }

  /** The figures for a month, read from the whole rent_payments table. */
  function MonthlyStatsFor(assignments: seq<AssignmentView>, table: seq<RentPayment>, month: MonthKey): MonthlyRentStats
  {
    FetchMonthlyStats(assignments, PaidRowsFor(table, month))
  }

  /** A payment of another month, or one not marked paid, does not move the
      month's figures. */
  lemma OtherRowsDoNotCount(assignments: seq<AssignmentView>, table: seq<RentPayment>, month: MonthKey, p: RentPayment)
    requires !IsPaidIn(month)(p)
    ensures MonthlyStatsFor(assignments, table + [p], month) == MonthlyStatsFor(assignments, table, month)
  {
    FilterConcat(table, [p], IsPaidIn(month));
    assert Filter([p], IsPaidIn(month)) == [];
    assert PaidRowsFor(table + [p], month) == PaidRowsFor(table, month);
  }

  datatype CollectionStatus = Complete | NearlyComplete | Pending

  /** `paidTenants >= assignedTenants * 0.8`, in integers. */
  predicate MostHavePaid(s: MonthlyRentStats)
  {
    5 * s.paidTenants >= 4 * s.assignedTenants
  }

  /** `getStatusText()`. */
  function StatusText(s: MonthlyRentStats): (t: string)
    ensures t == "Complete" <==> s.remaining <= 0
    ensures t == "Nearly Complete" <==> s.remaining > 0 && MostHavePaid(s)
    ensures t == "Pending" <==> s.remaining > 0 && !MostHavePaid(s)
  {
    if s.remaining <= 0 then "Complete"
    else if MostHavePaid(s) then "Nearly Complete"
    else "Pending"
  }

  /** `getStatusColor()`. */
  function StatusColor(s: MonthlyRentStats): (c: string)
    ensures c == "bg-green-500" <==> s.remaining <= 0
    ensures c == "bg-yellow-500" <==> s.remaining > 0 && MostHavePaid(s)
    ensures c == "bg-red-500" <==> s.remaining > 0 && !MostHavePaid(s)
  {
    if s.remaining <= 0 then "bg-green-500"
    else if MostHavePaid(s) then "bg-yellow-500"
    else "bg-red-500"
  }

  /** The colour that goes with each status text. */
  function ColorOfText(t: string): string
  {
    if t == "Complete" then "bg-green-500"
    else if t == "Nearly Complete" then "bg-yellow-500"
    else "bg-red-500"
  }

  /** The colour tracks the text exactly: equal texts give equal colours and
      equal colours give equal texts. */
  lemma ColorTracksText(s: MonthlyRentStats, u: MonthlyRentStats)
    ensures StatusColor(s) == ColorOfText(StatusText(s))
    ensures StatusText(s) == StatusText(u) <==> StatusColor(s) == StatusColor(u)
  {
  }

  /** `Math.max(0, stats.remaining)`: what the card shows as remaining. */
  function DisplayedRemaining(s: MonthlyRentStats): (r: nat)
    ensures r == 0 <==> StatusText(s) == "Complete"
    ensures r >= s.remaining && (s.remaining > 0 ==> r == s.remaining)
  {
    if s.remaining > 0 then s.remaining else 0
  }

  /** A month with no active assignment is complete, whatever was paid, as
      long as no payment is negative. */
  lemma NoAssignmentsIsComplete(paid: seq<RentPayment>)
    requires forall p :: p in paid ==> p.amount >= 0
    ensures StatusText(FetchMonthlyStats([], paid)) == "Complete"
  {
    SumOfNonNegative(paid, AmountOf);
  }

  /** Overpayment shows as complete with nothing remaining, even when fewer
      tenants than expected have paid. */
  lemma OverpaymentIsComplete(assignments: seq<AssignmentView>, paid: seq<RentPayment>)
    requires TotalAmount(paid) >= SumOf(assignments, ExpectedOf)
    ensures StatusText(FetchMonthlyStats(assignments, paid)) == "Complete"
    ensures DisplayedRemaining(FetchMonthlyStats(assignments, paid)) == 0
  {
  }
}
