/** The rows of the hosted database's tables (houses, profiles,
    tenant_assignments, rent_payments, maintenance_requests) as values, the
    joined views the screens select, and an in-memory store holding the
    tables that the screens write to. Nullable columns are `Option`s. */
module Records {
  import opened Collections

  type MonthOfYear = m: int | 1 <= m <= 12 witness 1
  type DayOfMonth = d: int | 1 <= d <= 31 witness 1

  /** A calendar date, as `getFullYear()`, `getMonth() + 1` and `getDate()`
      of a JavaScript `Date` give it. */
  datatype Date = Date(year: int, month: MonthOfYear, day: DayOfMonth)

  /** A `month_year` key, the text "YYYY-MM" read as its two numbers. */
  datatype MonthKey = MonthKey(year: int, month: int)

  function MonthOf(d: Date): MonthKey
  {
    MonthKey(d.year, d.month)
  }

  datatype House = House(
    id: string,
    floor: string,
    section: string,
    roomName: string,
    roomType: string,
    price: int,
    isVacant: bool,
    amenities: seq<string>)

  datatype Profile = Profile(
    id: string,
    role: Option<string>,
    fullName: Option<string>,
    email: Option<string>,
    phone: Option<string>)

  /** A tenant_assignments row; a null `is_active` reads as false. */
  datatype Assignment = Assignment(
    tenantId: string,
    houseId: string,
    assignedAt: Option<Date>,
    isActive: bool)

  datatype RentPayment = RentPayment(
    tenantId: string,
    houseId: string,
    amount: int,
    paymentMethod: Option<string>,
    paymentReference: Option<string>,
    paymentDate: Option<Date>,
    monthYear: MonthKey,
    status: Option<string>)

  datatype MaintenanceRequest = MaintenanceRequest(
    id: string,
    tenantId: string,
    houseId: string,
    title: string,
    description: Option<string>,
    requestType: string,
    status: Option<string>,
    priority: Option<string>)

  /** An active assignment as the admin screens select it: the row with the
      tenant's profile and the house joined in (`None` when the join finds
      no row). */
  datatype AssignmentView = AssignmentView(
    tenantId: string,
    houseId: string,
    tenant: Option<Profile>,
    house: Option<House>)

  /** `assignment.house?.price || 0`: the rent an assignment is expected
      to bring in, 0 when its house is missing. */
  function ExpectedOf(a: AssignmentView): int
  {
    if a.house.Some? then a.house.value.price else 0
  }

  /** The `variant` of a badge. */
  datatype BadgeVariant = Default | Secondary | Destructive

  function AmountOf(p: RentPayment): int
  {
    p.amount
  }

  /** `payments.reduce((sum, p) => sum + p.amount, 0)`. */
  function TotalAmount(rows: seq<RentPayment>): int
  {
    SumOf(rows, AmountOf)
  }

  /** The distinct `tenant_id`s among some payment rows. */
  function TenantIds(rows: seq<RentPayment>): set<string>
  {
    set i | 0 <= i < |rows| :: rows[i].tenantId
  }

  /** There are never more distinct payers than payment rows. */
  lemma {:induction false} TenantIdsAtMostRows(rows: seq<RentPayment>)
    ensures |TenantIds(rows)| <= |rows|
  {
    if rows != [] {
      var prefix := rows[..|rows| - 1];
      TenantIdsAtMostRows(prefix);
      assert TenantIds(rows) == TenantIds(prefix) + {rows[|rows| - 1].tenantId} by {
        forall t | t in TenantIds(rows)
          ensures t in TenantIds(prefix) + {rows[|rows| - 1].tenantId}
        {
          var i :| 0 <= i < |rows| && rows[i].tenantId == t;
          if i < |rows| - 1 {
            assert prefix[i] == rows[i];
          }
        }
        forall t | t in TenantIds(prefix)
          ensures t in TenantIds(rows)
        {
          var i :| 0 <= i < |prefix| && prefix[i].tenantId == t;
          assert rows[i] == prefix[i];
        }
      }
    }
  }

  /** The filter `.eq('month_year', month).eq('status', 'paid')`. */
  function IsPaidIn(month: MonthKey): RentPayment -> bool
  {
    (p: RentPayment) => p.monthYear == month && p.status == Some("paid")
  }

  /** The rows of the rent_payments table that a query for the paid
      payments of one month returns, in table order. */
  function PaidRowsFor(table: seq<RentPayment>, month: MonthKey): seq<RentPayment>
  {
    Filter(table, IsPaidIn(month))
  }

  /** `houses.update({ is_vacant: vacant }).eq('id', id)`. */
  function SetVacancy(houses: seq<House>, id: string, vacant: bool): (r: seq<House>)
    ensures |r| == |houses|
    ensures forall i :: 0 <= i < |houses| && houses[i].id == id ==> r[i] == houses[i].(isVacant := vacant)
    ensures forall i :: 0 <= i < |houses| && houses[i].id != id ==> r[i] == houses[i]
  {
    seq(|houses|, i requires 0 <= i < |houses| =>
      if houses[i].id == id then houses[i].(isVacant := vacant) else houses[i])
  }

  /** The tables the screens write to. Each field is one table, in the
      order the store returns its rows. */
  class Store {
    var houses: seq<House>
    var assignments: seq<Assignment>
    var payments: seq<RentPayment>
    var requests: seq<MaintenanceRequest>

    constructor (
      houses: seq<House>,
      assignments: seq<Assignment>,
      payments: seq<RentPayment>,
      requests: seq<MaintenanceRequest>)
      ensures this.houses == houses && this.assignments == assignments
      ensures this.payments == payments && this.requests == requests
    {
      this.houses := houses;
      this.assignments := assignments;
      this.payments := payments;
      this.requests := requests;
    }
  }
}
