/** The admin rent screen (src/components/admin/RentManagement.tsx): the
    summary cards over the selected month's payments and the active
    assignments, the badge colour of a payment's status, and the form that
    records a payment. */
module RentManagement {
  import opened Collections
  import opened Records
  import opened Decimal
  import MonthlyRentTracker
  import RentPayments

  function InMonth(month: MonthKey): RentPayment -> bool
  {
    (p: RentPayment) => p.monthYear == month
  }

  function NotPaid(): RentPayment -> bool
  {
    (p: RentPayment) => p.status != Some("paid")
  }

  function IsPaid(): RentPayment -> bool
  {
    (p: RentPayment) => p.status == Some("paid")
  }

  /** The rows the payments query of a month returns: every status. */
  function MonthRowsFor(table: seq<RentPayment>, month: MonthKey): seq<RentPayment>
  {
    Filter(table, InMonth(month))
  }

  /** The price of an assignment's house; the summary reads it without a
      null check. */
  function PriceOf(a: AssignmentView): int
    requires a.house.Some?
  {
    a.house.value.price
  }

  predicate HousesPresent(assignments: seq<AssignmentView>)
  {
    forall a :: a in assignments ==> a.house.Some?
  }

  function SumOfPrices(assignments: seq<AssignmentView>): (r: int)
    requires HousesPresent(assignments)
    ensures r == SumOf(assignments, ExpectedOf)
  {
    if assignments == [] then 0 else PriceOf(assignments[0]) + SumOfPrices(assignments[1..])
  }

  datatype Summary = Summary(
    totalExpected: int,
    totalReceived: int,
    outstanding: int,
    paymentsCount: nat,
    expectedCount: nat)

  /** The four summary cards. `outstanding` is shown as computed, negative
      when more was received than expected. */
  function SummaryOf(assignments: seq<AssignmentView>, monthRows: seq<RentPayment>): (s: Summary)
    requires HousesPresent(assignments)
    ensures s.totalExpected == SumOf(assignments, ExpectedOf)
    ensures s.totalReceived == TotalAmount(monthRows)
    ensures s.outstanding + s.totalReceived == s.totalExpected
    ensures s.paymentsCount == |monthRows| && s.expectedCount == |assignments|
  {
    var expected := SumOfPrices(assignments);
    var received := TotalAmount(monthRows);
    Summary(expected, received, expected - received, |monthRows|, |assignments|)
  }

  /** The month's rows split into the paid ones, which the collection
      tracker counts, and the rest, which only this screen adds in. */
  lemma ReceivedSplitsByStatus(table: seq<RentPayment>, month: MonthKey)
    ensures TotalAmount(MonthRowsFor(table, month)) ==
            TotalAmount(PaidRowsFor(table, month)) + TotalAmount(Filter(MonthRowsFor(table, month), NotPaid()))
    ensures |MonthRowsFor(table, month)| >= |PaidRowsFor(table, month)|
  {
    var rows := MonthRowsFor(table, month);
    SumOfSplit(rows, AmountOf, IsPaid(), NotPaid());
    FilterTwice(table, InMonth(month), IsPaid(), IsPaidIn(month));
    FilterComplement(rows, IsPaid(), NotPaid());
  }

  /** When every house is present and every row of the month is marked
      paid, this screen's figures are the collection tracker's: the same
      expected and received totals, and the same signed remainder. */
  lemma SummaryAgreesWithTracker(assignments: seq<AssignmentView>, table: seq<RentPayment>, month: MonthKey)
    requires HousesPresent(assignments)
    requires forall p :: p in table && p.monthYear == month ==> p.status == Some("paid")
    ensures var s := SummaryOf(assignments, MonthRowsFor(table, month));
            var t := MonthlyRentTracker.MonthlyStatsFor(assignments, table, month);
            s.totalExpected == t.expectedTotal && s.totalReceived == t.paidTotal &&
            s.outstanding == t.remaining && s.expectedCount == t.assignedTenants
  {
    var rows := MonthRowsFor(table, month);
    FilterKeepsAll(rows, IsPaid());
    FilterTwice(table, InMonth(month), IsPaid(), IsPaidIn(month));
  }

  /** The payments card counts rows, so it never shows fewer than the
      tracker's distinct payers. */
  lemma PaymentsCountAtLeastPayers(assignments: seq<AssignmentView>, table: seq<RentPayment>, month: MonthKey)
    requires HousesPresent(assignments)
    ensures SummaryOf(assignments, MonthRowsFor(table, month)).paymentsCount >=
            MonthlyRentTracker.MonthlyStatsFor(assignments, table, month).paidTenants
  {
    ReceivedSplitsByStatus(table, month);
  }

  /** `getStatusColor(status)` of this screen. */
  function StatusColor(status: string): (v: BadgeVariant)
    ensures v == Destructive <==> status == "pending" || status == "overdue"
    ensures v == Default <==> status == "paid"
  {
    if status == "paid" then Default
    else if status == "partial" then Secondary
    else if status == "pending" then Destructive
    else if status == "overdue" then Destructive
    else Secondary
  }

  /** This screen and the tenant's payment history colour a status the same
      way except "pending" and "late", which they colour in opposite ways. */
  lemma StatusColorsDifferOnlyOnPendingAndLate(status: string)
    ensures StatusColor(status) != RentPayments.StatusColor(status) <==> status == "pending" || status == "late"
  {
  }

  /** The `newPayment` form: every field is text, as the inputs hold it. */
  datatype PaymentDraft = PaymentDraft(
    tenantId: string,
    houseId: string,
    amount: string,
    paymentMethod: string,
    paymentReference: string,
    monthYear: MonthKey)

  function BlankDraft(currentMonth: MonthKey): PaymentDraft
  {
    PaymentDraft("", "", "", "", "", currentMonth)
  }

  function IsPair(tenantId: string, houseId: string): AssignmentView -> bool
  {
    (a: AssignmentView) => a.tenantId == tenantId && a.houseId == houseId
  }

  /** The amount text the form is filled with when a tenant and house are
      picked: the price of the first matching assignment, or nothing. */
  function Prefill(assignments: seq<AssignmentView>, tenantId: string, houseId: string): (amount: string)
    requires HousesPresent(assignments)
    ensures amount == "" <==> Find(assignments, IsPair(tenantId, houseId)).None?
    ensures amount != "" ==>
      ParseInt(amount) == Some(PriceOf(Find(assignments, IsPair(tenantId, houseId)).value))
  {
    match Find(assignments, IsPair(tenantId, houseId))
    case None => ""
    case Some(a) =>
      ParseIntOfIntToString(PriceOf(a));
      IntToString(PriceOf(a))
  }

  /** `text || null` for an optional input. */
  function NullIfEmpty(s: string): (r: Option<string>)
    ensures r.None? <==> s == ""
    ensures r.Some? ==> r.value == s
  {
    if s == "" then None else Some(s)
  }

  /** Why recording a payment stopped, or the row it recorded. */
  datatype AddOutcome = MissingFields | InsertFailed | Recorded(row: RentPayment)

  /** The row a draft would insert: `None` when a required field is empty
      or the amount is not a number (the insert is then refused). */
  function RowOf(d: PaymentDraft, paymentDate: Option<Date>): (r: Option<RentPayment>)
    ensures d.tenantId == "" || d.houseId == "" || d.amount == "" ==> r.None?
    ensures r.Some? ==> r.value.status == Some("paid") && Some(r.value.amount) == ParseInt(d.amount)
    ensures r.Some? ==> r.value.tenantId == d.tenantId && r.value.houseId == d.houseId
    ensures r.Some? ==> r.value.monthYear == d.monthYear
    ensures r.Some? ==> r.value.paymentMethod == NullIfEmpty(d.paymentMethod)
    ensures r.Some? ==> r.value.paymentReference == NullIfEmpty(d.paymentReference)
  {
    if d.tenantId == "" || d.houseId == "" || d.amount == "" then None
    else match ParseInt(d.amount)
      case None => None
      case Some(amount) =>
        Some(RentPayment(d.tenantId, d.houseId, amount, NullIfEmpty(d.paymentMethod),
                         NullIfEmpty(d.paymentReference), paymentDate, d.monthYear, Some("paid")))
  }

  /** Picking a tenant and house and then saving records the price of that
      assignment's house for that tenant and house. */
  lemma PrefilledAmountIsRecorded(d: PaymentDraft, assignments: seq<AssignmentView>, a: AssignmentView, paymentDate: Option<Date>)
    requires HousesPresent(assignments)
    requires a in assignments && a.tenantId != "" && a.houseId != ""
    ensures var picked := d.(tenantId := a.tenantId, houseId := a.houseId,
                             amount := Prefill(assignments, a.tenantId, a.houseId));
      RowOf(picked, paymentDate).Some? &&
      RowOf(picked, paymentDate).value.amount == PriceOf(Find(assignments, IsPair(a.tenantId, a.houseId)).value) &&
      RowOf(picked, paymentDate).value.tenantId == a.tenantId &&
      RowOf(picked, paymentDate).value.houseId == a.houseId
  {
    assert IsPair(a.tenantId, a.houseId)(a);
    var f := Find(assignments, IsPair(a.tenantId, a.houseId));
    assert f.Some?;
    ParseIntOfIntToString(PriceOf(f.value));
  }

  /** The screen's form state. */
  class RentScreen {
    var newPayment: PaymentDraft
    var showAddPayment: bool

    constructor (currentMonth: MonthKey)
      ensures newPayment == BlankDraft(currentMonth) && !showAddPayment
    {
      newPayment := BlankDraft(currentMonth);
      showAddPayment := false;
    }

    /** The select's `onValueChange`: set the tenant and house, prefill the
        amount, keep the other fields. */
    method SelectTenantHouse(assignments: seq<AssignmentView>, tenantId: string, houseId: string)
      requires HousesPresent(assignments)
      modifies this
      ensures newPayment == old(newPayment).(tenantId := tenantId, houseId := houseId,
                                             amount := Prefill(assignments, tenantId, houseId))
      ensures showAddPayment == old(showAddPayment)
    {
      var assignment := Find(assignments, IsPair(tenantId, houseId));
      var amount := if assignment.Some? then IntToString(assignment.value.house.value.price) else "";
      newPayment := newPayment.(tenantId := tenantId, houseId := houseId, amount := amount);
    }

    /** `addPayment`: validate, insert, then reset and close the form. A
        refused insert (`insertOk` false, or an amount that is not a number)
        changes nothing. */
    method AddPayment(store: Store, currentMonth: MonthKey, paymentDate: Option<Date>, insertOk: bool)
      returns (outcome: AddOutcome)
      modifies this, store
      ensures old(newPayment.tenantId == "" || newPayment.houseId == "" || newPayment.amount == "") ==>
        outcome == MissingFields
      ensures outcome.Recorded? <==> RowOf(old(newPayment), paymentDate).Some? && insertOk
      ensures outcome.Recorded? ==>
        outcome.row == RowOf(old(newPayment), paymentDate).value &&
        store.payments == old(store.payments) + [outcome.row] &&
        newPayment == BlankDraft(currentMonth) && !showAddPayment
      ensures !outcome.Recorded? ==>
        store.payments == old(store.payments) &&
        newPayment == old(newPayment) && showAddPayment == old(showAddPayment)
      ensures store.houses == old(store.houses) && store.assignments == old(store.assignments)
      ensures store.requests == old(store.requests)
    {
      if newPayment.tenantId == "" || newPayment.houseId == "" || newPayment.amount == "" {
        return MissingFields;
      }
      var row := RowOf(newPayment, paymentDate);
      if row.None? || !insertOk {
        return InsertFailed;
      }
      store.payments := store.payments + [row.value];
      newPayment := BlankDraft(currentMonth);
      showAddPayment := false;
      outcome := Recorded(row.value);
    }
  }
}
