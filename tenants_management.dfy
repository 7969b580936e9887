/** The admin tenants screen (src/components/admin/TenantsManagement.tsx): each
    tenant's current assignment, the search over tenants, and assigning and
    unassigning a house as updates of the assignments and houses tables. */
module TenantsManagement {
  import opened Collections
  import opened Records
  import opened Text

  function IsActive(): Assignment -> bool
  {
    (a: Assignment) => a.isActive
  }

  function OfTenant(t: string): Assignment -> bool
  {
    (a: Assignment) => a.tenantId == t
  }

  function ActiveOf(t: string): Assignment -> bool
  {
    (a: Assignment) => a.tenantId == t && a.isActive
  }

  /** `tenant_assignments?.find(a => a.is_active) || null`: the first active
      row among a tenant's assignments. */
  function ResolveAssignment(rows: seq<Assignment>): (r: Option<Assignment>)
    ensures r.None? <==> forall i :: 0 <= i < |rows| ==> !rows[i].isActive
    ensures r.Some? ==> r.value.isActive && r.value in rows
    ensures r.Some? ==> exists i :: 0 <= i < |rows| && rows[i] == r.value && forall j :: 0 <= j < i ==> !rows[j].isActive
  {
    Find(rows, IsActive())
  }

  /** The current assignment of a tenant in the whole table. */
  function CurrentAssignment(assignments: seq<Assignment>, t: string): Option<Assignment>
  {
    ResolveAssignment(Filter(assignments, OfTenant(t)))
  }

  /** A tenant card: the profile and the current assignment. */
  datatype TenantView = TenantView(profile: Profile, assignment: Option<Assignment>)

  function IsTenant(): Profile -> bool
  {
    (p: Profile) => p.role == Some("tenant")
  }

  function ViewOf(assignments: seq<Assignment>): Profile -> TenantView
  {
    (p: Profile) => TenantView(p, CurrentAssignment(assignments, p.id))
  }

  /** The tenants `fetchData` lists: the profiles with the tenant role, each
      with its current assignment. */
  function Tenants(profiles: seq<Profile>, assignments: seq<Assignment>): (r: seq<TenantView>)
    ensures forall v :: v in r ==> v.profile in profiles && v.profile.role == Some("tenant")
    ensures forall v :: v in r ==> v.assignment == CurrentAssignment(assignments, v.profile.id)
    ensures |r| == |Filter(profiles, IsTenant())|
    ensures forall i :: 0 <= i < |r| ==> r[i].profile == Filter(profiles, IsTenant())[i]
  {
    var kept := Filter(profiles, IsTenant());
    assert forall i :: 0 <= i < |kept| ==> kept[i] in kept;
    Map(kept, ViewOf(assignments))
  }

  /** Every profile with the tenant role is listed, and the list keeps the
      order of the profiles. */
  lemma EveryTenantListed(profiles: seq<Profile>, assignments: seq<Assignment>, p: Profile)
    requires p in profiles && p.role == Some("tenant")
    ensures TenantView(p, CurrentAssignment(assignments, p.id)) in Tenants(profiles, assignments)
    ensures IsSubsequence(Map(Tenants(profiles, assignments), (v: TenantView) => v.profile), profiles)
  {
    var kept := Filter(profiles, IsTenant());
    var r := Tenants(profiles, assignments);
    var i :| 0 <= i < |kept| && kept[i] == p;
    assert r[i] == TenantView(p, CurrentAssignment(assignments, p.id));
    assert Map(r, (v: TenantView) => v.profile) == kept;
    FilterIsSubsequence(profiles, IsTenant());
  }

  /** The houses offered for assignment: the vacant ones. */
  function VacantHouses(houses: seq<House>): (r: seq<House>)
    ensures forall h :: h in r <==> h in houses && h.isVacant
  {
    Filter(houses, (h: House) => h.isVacant)
  }

  /** `text?.toLowerCase().includes(term.toLowerCase())`; a null text never
      matches. */
  predicate FieldMatches(field: Option<string>, term: string)
  {
    field.Some? && IncludesIgnoringCase(field.value, term)
  }

  /** The search condition of `filteredTenants`: name or email ignoring
      case, or phone as typed. */
  predicate MatchesSearch(p: Profile, term: string)
  {
    FieldMatches(p.fullName, term) || FieldMatches(p.email, term) ||
    (p.phone.Some? && Includes(p.phone.value, term))
  }

  function Matches(term: string): TenantView -> bool
  {
    (v: TenantView) => MatchesSearch(v.profile, term)
  }

  /** `filteredTenants`. */
  function FilteredTenants(tenants: seq<TenantView>, term: string): (r: seq<TenantView>)
    ensures forall v :: v in r <==> v in tenants && MatchesSearch(v.profile, term)
  {
    Filter(tenants, Matches(term))
  }

  /** A tenant without name, email and phone is never shown, not even for an
      empty search; any other tenant is shown for an empty search. */
  lemma EmptySearchShowsTenantsWithContact(p: Profile)
    ensures MatchesSearch(p, "") <==> p.fullName.Some? || p.email.Some? || p.phone.Some?
  {
    if p.fullName.Some? {
      IncludesEmpty(Lower(p.fullName.value));
    }
    if p.email.Some? {
      IncludesEmpty(Lower(p.email.value));
    }
    if p.phone.Some? {
      IncludesEmpty(p.phone.value);
    }
  }

  /** The phone is searched as typed, the name ignoring case: a name matches
      a term and its lower-case form alike. */
  lemma NameSearchIgnoresCase(p: Profile, term: string)
    ensures FieldMatches(p.fullName, term) <==> FieldMatches(p.fullName, Lower(term))
  {
    LowerIdempotent(term);
  }

  /** Filtering keeps the order of the tenant list. */
  lemma FilteredTenantsInOrder(tenants: seq<TenantView>, term: string)
    ensures IsSubsequence(FilteredTenants(tenants, term), tenants)
  {
    FilterIsSubsequence(tenants, Matches(term));
  }

  // The assignments and houses tables together

  /** Some active assignment is to house `id`. */
  predicate Occupied(assignments: seq<Assignment>, id: string)
  {
    exists i :: 0 <= i < |assignments| && assignments[i].isActive && assignments[i].houseId == id
  }

  /** Some assignment of tenant `t` is active. */
  predicate HasActive(assignments: seq<Assignment>, t: string)
  {
    exists i :: 0 <= i < |assignments| && assignments[i].isActive && assignments[i].tenantId == t
  }

  predicate OneActivePerTenant(assignments: seq<Assignment>)
  {
    forall i, j ::
      (0 <= i < |assignments| && 0 <= j < |assignments| &&
       assignments[i].isActive && assignments[j].isActive &&
       assignments[i].tenantId == assignments[j].tenantId) ==> i == j
  }

  predicate OneActivePerHouse(assignments: seq<Assignment>)
  {
    forall i, j ::
      (0 <= i < |assignments| && 0 <= j < |assignments| &&
       assignments[i].isActive && assignments[j].isActive &&
       assignments[i].houseId == assignments[j].houseId) ==> i == j
  }

  /** A house is marked occupied exactly when an active assignment is to it. */
  predicate VacancyMatches(houses: seq<House>, assignments: seq<Assignment>)
  {
    forall k :: 0 <= k < |houses| ==> (!houses[k].isVacant <==> Occupied(assignments, houses[k].id))
  }

  /** The occupancy the screens keep: every tenant and every house has at
      most one active assignment, and the vacancy flags agree with them. */
  predicate Consistent(houses: seq<House>, assignments: seq<Assignment>)
  {
    OneActivePerTenant(assignments) && OneActivePerHouse(assignments) && VacancyMatches(houses, assignments)
  }

  /** In a consistent store a tenant's current assignment is its only active
      row. */
  lemma CurrentIsTheActiveRow(assignments: seq<Assignment>, i: int)
    requires OneActivePerTenant(assignments)
    requires 0 <= i < |assignments| && assignments[i].isActive
    ensures CurrentAssignment(assignments, assignments[i].tenantId) == Some(assignments[i])
  {
    var t := assignments[i].tenantId;
    var mine := Filter(assignments, OfTenant(t));
    assert assignments[i] in mine;
    var r := CurrentAssignment(assignments, t);
    assert r.Some?;
    var j :| 0 <= j < |assignments| && assignments[j] == r.value;
  }

  /** `update({ is_active: false }).eq('tenant_id', t).eq('is_active', true)`. */
  function DeactivateTenant(assignments: seq<Assignment>, t: string): (r: seq<Assignment>)
    ensures |r| == |assignments|
    ensures forall i :: 0 <= i < |assignments| ==>
      r[i] == if assignments[i].tenantId == t && assignments[i].isActive
              then assignments[i].(isActive := false) else assignments[i]
  {
    seq(|assignments|, i requires 0 <= i < |assignments| =>
      if assignments[i].tenantId == t && assignments[i].isActive
      then assignments[i].(isActive := false) else assignments[i])
  }

  /** `update({ is_active: false }).eq('tenant_id', t).eq('house_id', h).eq('is_active', true)`. */
  function DeactivatePair(assignments: seq<Assignment>, t: string, h: string): (r: seq<Assignment>)
    ensures |r| == |assignments|
    ensures forall i :: 0 <= i < |assignments| ==>
      r[i] == if assignments[i].tenantId == t && assignments[i].houseId == h && assignments[i].isActive
              then assignments[i].(isActive := false) else assignments[i]
  {
    seq(|assignments|, i requires 0 <= i < |assignments| =>
      if assignments[i].tenantId == t && assignments[i].houseId == h && assignments[i].isActive
      then assignments[i].(isActive := false) else assignments[i])
  }

  /** The assignments table after `assignHouse`: the deactivation (whose
      failure the screen does not notice), then the insert when it succeeds. */
  function AssignedRows(assignments: seq<Assignment>, t: string, h: string, assignedAt: Option<Date>,
                        deactivateOk: bool, insertOk: bool): seq<Assignment>
  {
    var d := if deactivateOk then DeactivateTenant(assignments, t) else assignments;
    if insertOk then d + [Assignment(t, h, assignedAt, true)] else d
  }

  /** `assignHouse(tenantId, houseId)`. Each step stops the sequence when it
      fails, except the first, whose outcome is not checked; the steps
      already taken stay applied. `assignedAt` is the database's default for
      the new row. */
  method AssignHouse(store: Store, t: string, h: string, assignedAt: Option<Date>,
                     deactivateOk: bool, insertOk: bool, houseOk: bool) returns (ok: bool)
    modifies store
    ensures ok <==> insertOk && houseOk
    ensures store.assignments == AssignedRows(old(store.assignments), t, h, assignedAt, deactivateOk, insertOk)
    ensures store.houses == if insertOk && houseOk then SetVacancy(old(store.houses), h, false) else old(store.houses)
    ensures store.payments == old(store.payments) && store.requests == old(store.requests)
  {
    if deactivateOk {
      store.assignments := DeactivateTenant(store.assignments, t);
    }
    if !insertOk {
      return false;
    }
    store.assignments := store.assignments + [Assignment(t, h, assignedAt, true)];
    if !houseOk {
      return false;
    }
    store.houses := SetVacancy(store.houses, h, false);
    ok := true;
  }

  /** After a successful assignment the tenant has exactly one active
      assignment, the new one, and it is the tenant's current assignment. */
  lemma AssignLeavesOneActive(assignments: seq<Assignment>, t: string, h: string, assignedAt: Option<Date>)
    ensures var after := AssignedRows(assignments, t, h, assignedAt, true, true);
      Filter(after, ActiveOf(t)) == [Assignment(t, h, assignedAt, true)] &&
      CurrentAssignment(after, t) == Some(Assignment(t, h, assignedAt, true))
  {
    var d := DeactivateTenant(assignments, t);
    var row := Assignment(t, h, assignedAt, true);
    FilterConcat(d, [row], ActiveOf(t));
    assert Filter(d, ActiveOf(t)) == [] by {
      if Filter(d, ActiveOf(t)) != [] {
        FilterHeadKept(d, ActiveOf(t));
      }
    }
    assert Filter([row], ActiveOf(t)) == [row];
    FilterConcat(d, [row], OfTenant(t));
    assert Filter([row], OfTenant(t)) == [row];
    var mine := Filter(d, OfTenant(t));
    forall i | 0 <= i < |mine| ensures !mine[i].isActive
    {
      assert mine[i] in mine;
    }
  }

  /** The screen ignores a failed deactivation: a tenant who already had an
      active assignment then ends up with two. */
  lemma IgnoredDeactivationLeavesTwo(assignments: seq<Assignment>, t: string, h: string, assignedAt: Option<Date>)
    requires HasActive(assignments, t)
    ensures |Filter(AssignedRows(assignments, t, h, assignedAt, false, true), ActiveOf(t))| >= 2
  {
    var row := Assignment(t, h, assignedAt, true);
    var i :| 0 <= i < |assignments| && assignments[i].isActive && assignments[i].tenantId == t;
    FilterConcat(assignments, [row], ActiveOf(t));
    assert Filter([row], ActiveOf(t)) == [row];
    assert assignments[i] in Filter(assignments, ActiveOf(t));
  }

  /** Assigning leaves the other tenants' rows and the other houses as they
      were. */
  lemma AssignKeepsOthers(houses: seq<House>, assignments: seq<Assignment>, t: string, h: string,
                          assignedAt: Option<Date>, deactivateOk: bool, insertOk: bool)
    ensures var after := AssignedRows(assignments, t, h, assignedAt, deactivateOk, insertOk);
      |after| >= |assignments| &&
      forall i :: 0 <= i < |assignments| && assignments[i].tenantId != t ==> after[i] == assignments[i]
    ensures forall k :: 0 <= k < |houses| && houses[k].id != h ==> SetVacancy(houses, h, false)[k] == houses[k]
  {
  }

  lemma DeactivateWithoutActive(assignments: seq<Assignment>, t: string)
    requires !HasActive(assignments, t)
    ensures DeactivateTenant(assignments, t) == assignments
  {
  }

  /** Assigning a vacant house to a tenant without an assignment, as the
      screen offers it, keeps the store consistent. */
  lemma AssignPreservesConsistency(houses: seq<House>, assignments: seq<Assignment>, t: string, h: string,
                                   assignedAt: Option<Date>)
    requires Consistent(houses, assignments)
    requires !HasActive(assignments, t)
    requires exists k :: 0 <= k < |houses| && houses[k].id == h && houses[k].isVacant
    ensures Consistent(SetVacancy(houses, h, false), AssignedRows(assignments, t, h, assignedAt, true, true))
  {
    DeactivateWithoutActive(assignments, t);
    var row := Assignment(t, h, assignedAt, true);
    var after := assignments + [row];
    assert AssignedRows(assignments, t, h, assignedAt, true, true) == after;
    var k0 :| 0 <= k0 < |houses| && houses[k0].id == h && houses[k0].isVacant;
    assert !Occupied(assignments, h);
    forall i, j | 0 <= i < |after| && 0 <= j < |after| && after[i].isActive && after[j].isActive &&
                  after[i].tenantId == after[j].tenantId
      ensures i == j
    {
    }
    forall i, j | 0 <= i < |after| && 0 <= j < |after| && after[i].isActive && after[j].isActive &&
                  after[i].houseId == after[j].houseId
      ensures i == j
    {
    }
    var hs := SetVacancy(houses, h, false);
    forall k | 0 <= k < |hs| ensures !hs[k].isVacant <==> Occupied(after, hs[k].id)
    {
      if houses[k].id == h {
        assert after[|assignments|] == row;
      } else {
        if Occupied(after, hs[k].id) {
          var i :| 0 <= i < |after| && after[i].isActive && after[i].houseId == hs[k].id;
          assert i < |assignments|;
        }
        if Occupied(assignments, houses[k].id) {
          var i :| 0 <= i < |assignments| && assignments[i].isActive && assignments[i].houseId == houses[k].id;
          assert after[i] == assignments[i];
        }
      }
    }
  }

  /** The assignments table after `unassignHouse` with the tenant's current
      assignment `current` as the screen last fetched it. */
  function UnassignedRows(assignments: seq<Assignment>, t: string, current: Option<Assignment>, deactivateOk: bool): seq<Assignment>
  {
    if current.Some? && deactivateOk then DeactivatePair(assignments, t, current.value.houseId) else assignments
  }

  /** `unassignHouse(tenantId)`: nothing without a current assignment;
      otherwise deactivate the active (tenant, house) rows, then mark the
      house vacant. A failed step stops the sequence. */
  method UnassignHouse(store: Store, t: string, current: Option<Assignment>, deactivateOk: bool, houseOk: bool)
    returns (ok: bool)
    modifies store
    ensures ok <==> current.Some? && deactivateOk && houseOk
    ensures store.assignments == UnassignedRows(old(store.assignments), t, current, deactivateOk)
    ensures store.houses == if ok then SetVacancy(old(store.houses), current.value.houseId, true) else old(store.houses)
    ensures store.payments == old(store.payments) && store.requests == old(store.requests)
  {
    if current.None? {
      return false;
    }
    if !deactivateOk {
      return false;
    }
    store.assignments := DeactivatePair(store.assignments, t, current.value.houseId);
    if !houseOk {
      return false;
    }
    store.houses := SetVacancy(store.houses, current.value.houseId, true);
    ok := true;
  }

  /** Unassigning the tenant's active row keeps the store consistent and
      leaves the tenant without an active assignment; other tenants' rows
      and other houses do not change. */
  lemma UnassignPreservesConsistency(houses: seq<House>, assignments: seq<Assignment>, i: int)
    requires Consistent(houses, assignments)
    requires 0 <= i < |assignments| && assignments[i].isActive
    ensures var a := assignments[i];
      var after := UnassignedRows(assignments, a.tenantId, Some(a), true);
      Consistent(SetVacancy(houses, a.houseId, true), after) && !HasActive(after, a.tenantId) &&
      forall j :: 0 <= j < |assignments| && assignments[j].tenantId != a.tenantId ==> after[j] == assignments[j]
  {
    var a := assignments[i];
    var after := DeactivatePair(assignments, a.tenantId, a.houseId);
    forall j | 0 <= j < |after| && after[j].isActive ensures j != i && assignments[j] == after[j]
    {
    }
    assert !HasActive(after, a.tenantId);
    var hs := SetVacancy(houses, a.houseId, true);
    forall k | 0 <= k < |hs| ensures !hs[k].isVacant <==> Occupied(after, hs[k].id)
    {
      if houses[k].id != a.houseId {
        if Occupied(assignments, houses[k].id) {
          var j :| 0 <= j < |assignments| && assignments[j].isActive && assignments[j].houseId == houses[k].id;
          assert after[j] == assignments[j];
        }
      }
    }
  }
}
