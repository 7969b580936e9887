/** The tenant's rent history (src/components/tenant/RentPayments.tsx): the
    status of one month, derived from the day of the month the rent was paid
    and from today's date, and the list of billable months of a year from the
    month of assignment up to the current month, newest first. */
module RentPayments {
  import opened Collections
  import opened Records

  /** The flat late fee, in currency units. */
  const LatePenalty: int := 200

  /** The status labels the classifier shows. */
  datatype PaymentState = Paid | Late | PendingLate | Overdue | Pending

  function StatusLabel(s: PaymentState): string
  {
    match s
    case Paid => "paid"
    case Late => "late"
    case PendingLate => "pending (late)"
    case Overdue => "overdue"
    case Pending => "pending"
  }

  datatype StatusInfo = StatusInfo(status: PaymentState, color: BadgeVariant, penalty: int)

  /** The months since year 0 of a month key. `new Date(year, month - 1, 1)`
      normalises an out-of-range month the same way. */
  function MonthIndex(k: MonthKey): int
  {
    k.year * 12 + (k.month - 1)
  }

  /** The first day of the month lies after today. */
  predicate IsFuture(k: MonthKey, today: Date)
  {
    MonthIndex(k) > MonthIndex(MonthOf(today))
  }

  /** A penalty is either nothing or the late fee, and it is charged exactly
      when the badge is destructive. */
  predicate PenaltyConsistent(info: StatusInfo)
  {
    (info.penalty == 0 || info.penalty == LatePenalty) &&
    (info.penalty == LatePenalty <==> info.color == Destructive)
  }

  /** `getPaymentStatus(monthYear, paymentDate)`, with `paymentDay` the day of
      the month of the payment date (`None` when there is no payment date). */
  function GetPaymentStatus(month: MonthKey, today: Date, paymentDay: Option<int>): (r: Option<StatusInfo>)
    ensures r.None? <==> IsFuture(month, today)
    ensures r.Some? ==> PenaltyConsistent(r.value)
    ensures r.Some? ==> (r.value.penalty == LatePenalty <==> r.value.status in {Late, PendingLate, Overdue})
  {
    if IsFuture(month, today) then None
    else if paymentDay.Some? then
      var d := paymentDay.value;
      if 1 <= d <= 5 then Some(StatusInfo(Paid, Default, 0))
      else if 6 <= d <= 9 then Some(StatusInfo(Late, Destructive, LatePenalty))
      else Some(StatusInfo(Paid, Default, 0))
    else if MonthIndex(month) == MonthIndex(MonthOf(today)) then
      if today.day > 9 then Some(StatusInfo(Overdue, Destructive, LatePenalty))
      else if today.day > 5 then Some(StatusInfo(PendingLate, Destructive, LatePenalty))
      else Some(StatusInfo(Pending, Secondary, 0))
    else if MonthIndex(month) < MonthIndex(MonthOf(today)) then
      Some(StatusInfo(Overdue, Destructive, LatePenalty))
    else
      Some(StatusInfo(Pending, Secondary, 0))
  }

  /** With a payment, only its day of the month matters: days 1 to 5 are
      paid, days 6 to 9 are late with the fee, and every other day is paid
      without a fee. */
  lemma PaymentDayDecides(month: MonthKey, today: Date, d: int)
    requires !IsFuture(month, today)
    ensures 1 <= d <= 5 ==> GetPaymentStatus(month, today, Some(d)) == Some(StatusInfo(Paid, Default, 0))
    ensures 6 <= d <= 9 ==> GetPaymentStatus(month, today, Some(d)) == Some(StatusInfo(Late, Destructive, LatePenalty))
    ensures d >= 10 ==> GetPaymentStatus(month, today, Some(d)) == Some(StatusInfo(Paid, Default, 0))
  {
  }

  /** As written, a payment made on the 10th or later is shown as paid
      without a fee, although the screen's guidelines card announces the fee
      for every payment after the 9th. */
  lemma PaymentAfterNinthCarriesNoFee(month: MonthKey, today: Date, d: DayOfMonth)
    requires !IsFuture(month, today) && d >= 10
    ensures GetPaymentStatus(month, today, Some(d)) == Some(StatusInfo(Paid, Default, 0))
    ensures PaidMonthStatus(d).penalty == LatePenalty
  {
  }

  /** The status of a paid month as the guidelines card describes it: paid
      on days 1 to 5, late with the fee on days 6 to 9, overdue with the fee
      after the 9th. */
  function PaidMonthStatus(d: DayOfMonth): (info: StatusInfo)
    ensures PenaltyConsistent(info)
    ensures info.penalty == 0 <==> d <= 5
    ensures info.status == Paid <==> d <= 5
  {
    if d <= 5 then StatusInfo(Paid, Default, 0)
    else if d <= 9 then StatusInfo(Late, Destructive, LatePenalty)
    else StatusInfo(Overdue, Destructive, LatePenalty)
  }

  /** The corrected classification agrees with `getPaymentStatus` up to the
      9th and differs from it exactly from the 10th on, where it charges the
      fee. */
  lemma PaidMonthStatusDiffersFromTenth(month: MonthKey, today: Date, d: DayOfMonth)
    requires !IsFuture(month, today)
    ensures GetPaymentStatus(month, today, Some(d)) == Some(PaidMonthStatus(d)) <==> d <= 9
    ensures PaidMonthStatus(d).penalty == LatePenalty <==> 6 <= d
  {
  }

  /** Without a payment in the current month, today's day decides: up to the
      5th pending, 6th to 9th pending (late) with the fee, later overdue. */
  lemma CurrentMonthUnpaid(today: Date)
    ensures today.day <= 5 ==> GetPaymentStatus(MonthOf(today), today, None) == Some(StatusInfo(Pending, Secondary, 0))
    ensures 6 <= today.day <= 9 ==> GetPaymentStatus(MonthOf(today), today, None) == Some(StatusInfo(PendingLate, Destructive, LatePenalty))
    ensures today.day >= 10 ==> GetPaymentStatus(MonthOf(today), today, None) == Some(StatusInfo(Overdue, Destructive, LatePenalty))
  {
  }

  /** A past month without a payment is overdue whatever today's day is: the
      final `pending` fallback is never reached. */
  lemma PastMonthUnpaidIsOverdue(month: MonthKey, today: Date)
    requires MonthIndex(month) < MonthIndex(MonthOf(today))
    ensures GetPaymentStatus(month, today, None) == Some(StatusInfo(Overdue, Destructive, LatePenalty))
  {
  }

  /** The fallback: no status is ever `pending` outside the current month. */
  lemma PendingOnlyInCurrentMonth(month: MonthKey, today: Date, paymentDay: Option<int>)
    requires GetPaymentStatus(month, today, paymentDay).Some?
    requires GetPaymentStatus(month, today, paymentDay).value.status == Pending
    ensures paymentDay.None? && MonthIndex(month) == MonthIndex(MonthOf(today)) && today.day <= 5
  {
  }

  /** `getStatusColor(status)`: the badge variant for a stored status text. */
  function StatusColor(status: string): (v: BadgeVariant)
    ensures v == Destructive <==> status == "late" || status == "overdue"
    ensures v == Default <==> status == "paid"
  {
    if status == "paid" then Default
    else if status == "partial" then Secondary
    else if status == "late" then Destructive
    else if status == "overdue" then Destructive
    else Secondary
  }

  /** The colour table agrees with the classifier's own colour for every
      status except "pending (late)", which it shows as secondary although the
      classifier marks it destructive. */
  lemma StatusColorAgreesWithClassifier(month: MonthKey, today: Date, paymentDay: Option<int>)
    requires GetPaymentStatus(month, today, paymentDay).Some?
    ensures var info := GetPaymentStatus(month, today, paymentDay).value;
      (StatusColor(StatusLabel(info.status)) == info.color) <==> info.status != PendingLate
  {
  }

  /** One row of the month list. */
  datatype MonthEntry = MonthEntry(monthYear: MonthKey, payment: Option<RentPayment>, statusInfo: StatusInfo)

  function ForMonth(k: MonthKey): RentPayment -> bool
  {
    (p: RentPayment) => p.monthYear == k
  }

  /** `new Date(payment?.payment_date).getDate()`; a payment row whose
      payment date is null counts as no payment. */
  function PaymentDay(payment: Option<RentPayment>): Option<int>
  {
    if payment.Some? && payment.value.paymentDate.Some? then Some(payment.value.paymentDate.value.day)
    else None
  }

  /** The row for a month that is not in the future: the first payment whose
      `month_year` matches, and the month's status. */
  function MakeEntry(k: MonthKey, today: Date, payments: seq<RentPayment>): MonthEntry
    requires !IsFuture(k, today)
  {
    var payment := Find(payments, ForMonth(k));
    MonthEntry(k, payment, GetPaymentStatus(k, today, PaymentDay(payment)).value)
  }

  /** The month the list of a year starts at. */
  function FirstMonth(since: Date, year: int): int
  {
    if year == since.year then since.month else 1
  }

  /** The last month of a year that is not in the future, 0 if none is. */
  function LastMonth(year: int, today: Date): int
  {
    if year < today.year then 12 else if year == today.year then today.month else 0
  }

  lemma LastMonthNotFuture(year: int, today: Date, m: int)
    requires 1 <= m <= LastMonth(year, today)
    ensures !IsFuture(MonthKey(year, m), today)
  {
  }

  /** The entries of the months `last` down to `first` of a year, newest
      first. */
  function MonthsDown(year: int, first: int, last: int, today: Date, payments: seq<RentPayment>): (r: seq<MonthEntry>)
    requires 1 <= first && last <= LastMonth(year, today)
    ensures |r| == if last >= first then last - first + 1 else 0
    ensures forall k :: 0 <= k < |r| ==> !IsFuture(r[k].monthYear, today)
    ensures forall k :: 0 <= k < |r| ==> r[k] == MakeEntry(MonthKey(year, last - k), today, payments)
  {
    var n := if last >= first then last - first + 1 else 0;
    seq(n, k requires 0 <= k < n =>
      LastMonthNotFuture(year, today, last - k);
      MakeEntry(MonthKey(year, last - k), today, payments))
  }

  /** The list `generateMonthsFromAssignment(year)` returns: newest first,
      from the last month of the year that is not in the future down to the
      month of assignment (or January). */
  function MonthList(assignedAt: Option<Date>, year: int, today: Date, payments: seq<RentPayment>): (r: seq<MonthEntry>)
    ensures assignedAt.None? || year < assignedAt.value.year ==> r == []
    ensures forall k :: 0 <= k < |r| ==> r[k].monthYear.year == year && !IsFuture(r[k].monthYear, today)
    ensures forall k :: 0 <= k < |r| ==> FirstMonth(assignedAt.value, year) <= r[k].monthYear.month <= 12
    ensures forall k :: 0 <= k < |r| ==> r[k] == MakeEntry(r[k].monthYear, today, payments)
    ensures forall k :: 0 <= k < |r| ==> r[k].monthYear.month == LastMonth(year, today) - k
    ensures assignedAt.Some? && year >= assignedAt.value.year ==>
      |r| == if LastMonth(year, today) >= FirstMonth(assignedAt.value, year)
             then LastMonth(year, today) - FirstMonth(assignedAt.value, year) + 1 else 0
  {
    if assignedAt.None? || year < assignedAt.value.year then []
    else MonthsDown(year, FirstMonth(assignedAt.value, year), LastMonth(year, today), today, payments)
  }

  /** The list is strictly newest first, so no month appears twice. */
  lemma MonthListNewestFirst(assignedAt: Option<Date>, year: int, today: Date, payments: seq<RentPayment>, i: int, j: int)
    requires var r := MonthList(assignedAt, year, today, payments); 0 <= i < j < |r|
    ensures var r := MonthList(assignedAt, year, today, payments);
      r[i].monthYear.month > r[j].monthYear.month && r[i].monthYear != r[j].monthYear
  {
  }

  /** A month of the year is listed exactly when the tenant was assigned by
      then (in that year or an earlier one) and the month is not in the
      future. */
  lemma {:induction false} MonthListed(assignedAt: Option<Date>, year: int, today: Date, payments: seq<RentPayment>, m: int)
    ensures (exists k :: 0 <= k < |MonthList(assignedAt, year, today, payments)| &&
               MonthList(assignedAt, year, today, payments)[k].monthYear == MonthKey(year, m))
        <==>
            (assignedAt.Some? && year >= assignedAt.value.year &&
             FirstMonth(assignedAt.value, year) <= m <= 12 && !IsFuture(MonthKey(year, m), today))
  {
    var r := MonthList(assignedAt, year, today, payments);
    if assignedAt.Some? && year >= assignedAt.value.year &&
       FirstMonth(assignedAt.value, year) <= m <= 12 && !IsFuture(MonthKey(year, m), today)
    {
      var last := LastMonth(year, today);
      assert m <= last;
      var k := last - m;
      assert r[k].monthYear == MonthKey(year, m);
    }
  }

  /** `generateMonthsFromAssignment(year)`: walk the months from the first
      to the last month of the year, keep those with a status, then reverse. */
  method GenerateMonthsFromAssignment(assignedAt: Option<Date>, year: int, today: Date, payments: seq<RentPayment>)
    returns (months: seq<MonthEntry>)
    ensures months == MonthList(assignedAt, year, today, payments)
  {
    if assignedAt.None? {
      return [];
    }
    var since := assignedAt.value;
    if year < since.year {
      return [];
    }
    var startMonth := if year == since.year then since.month else 1;
    var endMonth := if year == today.year then today.month else 12;
    ghost var last := LastMonth(year, today);
    var ascending: seq<MonthEntry> := [];
    var i := startMonth;
    while i <= endMonth
      invariant startMonth <= i <= if startMonth <= endMonth + 1 then endMonth + 1 else startMonth
      invariant |ascending| == if i - 1 < last then i - startMonth else if last >= startMonth then last - startMonth + 1 else 0
      invariant forall k :: 0 <= k < |ascending| ==>
        startMonth + k <= last && ascending[k] == MakeEntry(MonthKey(year, startMonth + k), today, payments)
    {
      var key := MonthKey(year, i);
      var payment := Find(payments, ForMonth(key));
      var statusInfo := GetPaymentStatus(key, today, PaymentDay(payment));
      if statusInfo.Some? {
        ascending := ascending + [MonthEntry(key, payment, statusInfo.value)];
      }
      i := i + 1;
    }
    months := seq(|ascending|, k requires 0 <= k < |ascending| => ascending[|ascending| - 1 - k]);
  }
}
