/** The admin dashboard's figures (src/components/admin/AdminDashboard.tsx):
    houses, occupancy, tenants, pending requests and the current month's
    revenue. */
module AdminDashboard {
  import opened Collections
  import opened Records
  import TenantsManagement
  import MonthlyRentTracker

  datatype AdminStats = AdminStats(
    totalHouses: nat,
    occupiedHouses: nat,
    vacantHouses: int,
    totalTenants: nat,
    pendingRequests: nat,
    totalRevenue: int)

  function IsVacant(): House -> bool
  {
    (h: House) => h.isVacant
  }

  function IsOccupied(): House -> bool
  {
    (h: House) => !h.isVacant
  }

  function IsTenant(): Profile -> bool
  {
    (p: Profile) => p.role == Some("tenant")
  }

  function IsPending(): MaintenanceRequest -> bool
  {
    (r: MaintenanceRequest) => r.status == Some("pending")
  }

  /** `fetchStats`: each table is `None` when its query gave no data, and
      the revenue reads the current month's paid rows. */
  function FetchStats(houses: Option<seq<House>>, profiles: Option<seq<Profile>>,
                      requests: Option<seq<MaintenanceRequest>>, payments: Option<seq<RentPayment>>,
                      month: MonthKey): (s: AdminStats)
    ensures s.occupiedHouses + s.vacantHouses == s.totalHouses
    ensures houses.Some? ==> s.totalHouses == |houses.value|
    ensures houses.Some? ==> s.occupiedHouses == |Filter(houses.value, IsOccupied())|
    ensures houses.Some? ==> s.vacantHouses == |Filter(houses.value, IsVacant())|
    ensures houses.None? ==> s.totalHouses == 0 && s.occupiedHouses == 0 && s.vacantHouses == 0
    ensures profiles.Some? ==> s.totalTenants == |Filter(profiles.value, IsTenant())|
    ensures profiles.None? ==> s.totalTenants == 0
    ensures requests.Some? ==> s.pendingRequests == |Filter(requests.value, IsPending())|
    ensures requests.None? ==> s.pendingRequests == 0
    ensures payments.None? ==> s.totalRevenue == 0
    ensures payments.Some? ==> s.totalRevenue == MonthlyRentTracker.MonthlyStatsFor([], payments.value, month).paidTotal
  {
    var occupied := if houses.Some? then |Filter(houses.value, IsOccupied())| else 0;
    var s := AdminStats(
      LengthOrZero(houses),
      occupied,
      LengthOrZero(houses) - occupied,
      if profiles.Some? then |Filter(profiles.value, IsTenant())| else 0,
      if requests.Some? then |Filter(requests.value, IsPending())| else 0,
      if payments.Some? then TotalAmount(PaidRowsFor(payments.value, month)) else 0);
    if houses.Some? then
      FilterComplement(houses.value, IsOccupied(), IsVacant());
      s
    else s
  }

  /** With no paid row this month the revenue is 0. */
  lemma NoPaymentsNoRevenue(houses: Option<seq<House>>, profiles: Option<seq<Profile>>,
                            requests: Option<seq<MaintenanceRequest>>, payments: seq<RentPayment>, month: MonthKey)
    requires forall p :: p in payments ==> !IsPaidIn(month)(p)
    ensures FetchStats(houses, profiles, requests, Some(payments), month).totalRevenue == 0
  {
    assert PaidRowsFor(payments, month) == [] by {
      if PaidRowsFor(payments, month) != [] {
        FilterHeadKept(payments, IsPaidIn(month));
      }
    }
  }

  /** When the houses and assignments are consistent, the occupied count is
      the number of houses that some active assignment is to. */
  lemma OccupiedMeansAssigned(houses: seq<House>, assignments: seq<Assignment>, profiles: Option<seq<Profile>>,
                              requests: Option<seq<MaintenanceRequest>>, payments: Option<seq<RentPayment>>,
                              month: MonthKey)
    requires TenantsManagement.Consistent(houses, assignments)
    ensures FetchStats(Some(houses), profiles, requests, payments, month).occupiedHouses ==
            |Filter(houses, (h: House) => TenantsManagement.Occupied(assignments, h.id))|
  {
    forall h | h in houses ensures IsOccupied()(h) == TenantsManagement.Occupied(assignments, h.id)
    {
      var k :| 0 <= k < |houses| && houses[k] == h;
    }
    FilterAgrees(houses, IsOccupied(), (h: House) => TenantsManagement.Occupied(assignments, h.id));
  }
}
