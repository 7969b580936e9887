/** The unpaid-tenants list of one month (src/components/admin/UnpaidTenantsTracker.tsx):
    a per-tenant total of the month's paid payments, the active assignments
    whose tenant has paid less than the house price, and the manual payment
    that settles one of them. */
module UnpaidTenantsTracker {
  import opened Collections
  import opened Records

  function TenantIs(t: string): RentPayment -> bool
  {
    (p: RentPayment) => p.tenantId == t
  }

  function TenantIsNot(t: string): RentPayment -> bool
  {
    (p: RentPayment) => p.tenantId != t
  }

  /** What one tenant has paid, over some payment rows. */
  function PaidBy(rows: seq<RentPayment>, t: string): int
  {
    TotalAmount(Filter(rows, TenantIs(t)))
  }

  /** `paymentMap`: one entry per paying tenant, holding that tenant's total. */
  predicate IsPaymentMap(m: map<string, int>, rows: seq<RentPayment>)
  {
    m.Keys == TenantIds(rows) && forall t :: t in m ==> m[t] == PaidBy(rows, t)
  }

  /** `paymentMap.get(t) || 0`. */
  function Lookup(m: map<string, int>, t: string): int
  {
    if t in m then m[t] else 0
  }

  /** A tenant without a payment row has paid nothing. */
  lemma PaidByNonPayer(rows: seq<RentPayment>, t: string)
    requires t !in TenantIds(rows)
    ensures PaidBy(rows, t) == 0
  {
    var r := Filter(rows, TenantIs(t));
    if r != [] {
      FilterHeadKept(rows, TenantIs(t));
    }
  }

  lemma FirstRowPays(rows: seq<RentPayment>)
    requires rows != []
    ensures rows[0].tenantId in TenantIds(rows)
  {
  }

  /** Looking a tenant up in the map gives what that tenant paid. */
  lemma LookupIsPaidBy(m: map<string, int>, rows: seq<RentPayment>, t: string)
    requires IsPaymentMap(m, rows)
    ensures Lookup(m, t) == PaidBy(rows, t)
  {
    if t !in m {
      PaidByNonPayer(rows, t);
    }
  }

  lemma PaidByAppend(rows: seq<RentPayment>, p: RentPayment, t: string)
    ensures PaidBy(rows + [p], t) == PaidBy(rows, t) + (if p.tenantId == t then p.amount else 0)
  {
    FilterConcat(rows, [p], TenantIs(t));
    SumOfConcat(Filter(rows, TenantIs(t)), Filter([p], TenantIs(t)), AmountOf);
  }

  lemma TenantIdsAppend(rows: seq<RentPayment>, p: RentPayment)
    ensures TenantIds(rows + [p]) == TenantIds(rows) + {p.tenantId}
  {
    var s := rows + [p];
    forall t | t in TenantIds(s) ensures t in TenantIds(rows) + {p.tenantId}
    {
      var i :| 0 <= i < |s| && s[i].tenantId == t;
      if i < |rows| {
        assert rows[i] == s[i];
      }
    }
    forall t | t in TenantIds(rows) ensures t in TenantIds(s)
    {
      var i :| 0 <= i < |rows| && rows[i].tenantId == t;
      assert s[i] == rows[i];
    }
    assert s[|rows|] == p;
  }

  /** The `forEach` over the month's payments that fills `paymentMap`. */
  method BuildPaymentMap(payments: seq<RentPayment>) returns (m: map<string, int>)
    ensures IsPaymentMap(m, payments)
  {
    m := map[];
    var i := 0;
    while i < |payments|
      invariant 0 <= i <= |payments|
      invariant IsPaymentMap(m, payments[..i])
    {
      var p := payments[i];
      var existing := Lookup(m, p.tenantId);
      LookupIsPaidBy(m, payments[..i], p.tenantId);
      assert payments[..i + 1] == payments[..i] + [p];
      TenantIdsAppend(payments[..i], p);
      forall t | t in m ensures PaidBy(payments[..i + 1], t) == PaidBy(payments[..i], t) + (if p.tenantId == t then p.amount else 0)
      {
        PaidByAppend(payments[..i], p, t);
      }
      PaidByAppend(payments[..i], p, p.tenantId);
      m := m[p.tenantId := existing + p.amount];
      i := i + 1;
    }
    assert payments[..i] == payments;
  }

  /** Every payment row belongs to exactly one tenant, so the per-tenant
      totals add up to the total of all the rows. */
  function PaidByOf(rows: seq<RentPayment>): string -> int
  {
    (t: string) => PaidBy(rows, t)
  }

  predicate Distinct(ks: seq<string>)
  {
    forall i, j :: 0 <= i < j < |ks| ==> ks[i] != ks[j]
  }

  lemma TenantIdsOfOthers(rows: seq<RentPayment>, k: string)
    ensures TenantIds(Filter(rows, TenantIsNot(k))) == TenantIds(rows) - {k}
  {
    var rest := Filter(rows, TenantIsNot(k));
    forall t | t in TenantIds(rest) ensures t in TenantIds(rows) - {k}
    {
      var i :| 0 <= i < |rest| && rest[i].tenantId == t;
      assert rest[i] in rest;
      var j :| 0 <= j < |rows| && rows[j] == rest[i];
    }
    forall t | t in TenantIds(rows) - {k} ensures t in TenantIds(rest)
    {
      var j :| 0 <= j < |rows| && rows[j].tenantId == t;
      assert rows[j] in rest;
      var i :| 0 <= i < |rest| && rest[i] == rows[j];
    }
  }

  lemma PaidByOthers(rows: seq<RentPayment>, k: string, t: string)
    requires t != k
    ensures PaidBy(Filter(rows, TenantIsNot(k)), t) == PaidBy(rows, t)
  {
    FilterTwice(rows, TenantIsNot(k), TenantIs(t), TenantIs(t));
  }

  /** The map's values, summed over its keys in any order, give the total of
      the month's paid payments. */
  lemma {:induction false} PerTenantTotalsConserve(rows: seq<RentPayment>, ks: seq<string>)
    requires Distinct(ks)
    requires (set t | t in ks) == TenantIds(rows)
    ensures SumOf(ks, PaidByOf(rows)) == TotalAmount(rows)
    decreases |ks|
  {
    if ks == [] && rows != [] {
      FirstRowPays(rows);
    } else if ks != [] {
      var k := ks[0];
      var rest := Filter(rows, TenantIsNot(k));
      TenantIdsOfOthers(rows, k);
      assert (set t | t in ks[1..]) == TenantIds(rest) by {
        forall t | t in ks[1..] ensures t != k
        {
          var j :| 0 <= j < |ks[1..]| && ks[1..][j] == t;
          assert ks[j + 1] == t;
        }
      }
      PerTenantTotalsConserve(rest, ks[1..]);
      forall t | t in ks[1..] ensures PaidByOf(rest)(t) == PaidByOf(rows)(t)
      {
        var j :| 0 <= j < |ks[1..]| && ks[1..][j] == t;
        assert ks[j + 1] == t;
        PaidByOthers(rows, k, t);
      }
      SumOfAgrees(ks[1..], PaidByOf(rest), PaidByOf(rows));
      SumOfSplit(rows, AmountOf, TenantIs(k), TenantIsNot(k));
    }
  }

  /** The per-tenant totals in the map add up to the month's total. */
  lemma PaymentMapConserves(m: map<string, int>, rows: seq<RentPayment>, ks: seq<string>)
    requires IsPaymentMap(m, rows)
    requires Distinct(ks) && (set t | t in ks) == m.Keys
    ensures SumOf(ks, (t: string) => Lookup(m, t)) == TotalAmount(rows)
  {
    forall t | t in ks ensures Lookup(m, t) == PaidByOf(rows)(t)
    {
      LookupIsPaidBy(m, rows, t);
    }
    SumOfAgrees(ks, (t: string) => Lookup(m, t), PaidByOf(rows));
    PerTenantTotalsConserve(rows, ks);
  }

  /** One row of the unpaid list. */
  datatype UnpaidTenant = UnpaidTenant(
    tenantId: string,
    tenantName: string,
    tenantEmail: string,
    houseId: string,
    roomName: string,
    expectedAmount: int,
    paidAmount: int,
    outstanding: int)

  /** `text || fallback` for a nullable text column. */
  function OrElse(s: Option<string>, fallback: string): (r: string)
    ensures s.Some? && s.value != "" ==> r == s.value
    ensures s.None? || s.value == "" ==> r == fallback
  {
    if s.Some? && s.value != "" then s.value else fallback
  }

  function IsUnpaid(m: map<string, int>): AssignmentView -> bool
  {
    (a: AssignmentView) => Lookup(m, a.tenantId) < ExpectedOf(a)
  }

  /** The entry shown for an assignment. */
  function Row(m: map<string, int>): AssignmentView -> UnpaidTenant
  {
    (a: AssignmentView) =>
      UnpaidTenant(
        a.tenantId,
        OrElse(if a.tenant.Some? then a.tenant.value.fullName else None, "Unknown"),
        OrElse(if a.tenant.Some? then a.tenant.value.email else None, ""),
        a.houseId,
        OrElse(if a.house.Some? then Some(a.house.value.roomName) else None, "Unknown"),
        ExpectedOf(a),
        Lookup(m, a.tenantId),
        ExpectedOf(a) - Lookup(m, a.tenantId))
  }

  /** The list `fetchUnpaidTenants` computes from the active assignments and
      the per-tenant map of the month's paid payments. */
  function UnpaidTenants(assignments: seq<AssignmentView>, m: map<string, int>): (r: seq<UnpaidTenant>)
    ensures |r| <= |assignments|
    ensures forall e :: e in r ==> e.outstanding > 0 && e.paidAmount + e.outstanding == e.expectedAmount
    ensures forall e :: e in r ==> e.paidAmount == Lookup(m, e.tenantId)
  {
    var kept := Filter(assignments, IsUnpaid(m));
    assert forall i :: 0 <= i < |kept| ==> kept[i] in kept;
    Map(kept, Row(m))
  }

  /** An active assignment is listed exactly when its tenant has paid less
      than the price of its house. */
  lemma ListedIffUnderpaid(assignments: seq<AssignmentView>, m: map<string, int>, a: AssignmentView)
    requires a in assignments
    ensures Row(m)(a) in UnpaidTenants(assignments, m) <==> Lookup(m, a.tenantId) < ExpectedOf(a)
  {
    var kept := Filter(assignments, IsUnpaid(m));
    var r := UnpaidTenants(assignments, m);
    if Lookup(m, a.tenantId) < ExpectedOf(a) {
      assert a in kept;
      var i :| 0 <= i < |kept| && kept[i] == a;
      assert r[i] == Row(m)(a);
    }
    if Row(m)(a) in r {
      var i :| 0 <= i < |r| && r[i] == Row(m)(a);
      assert kept[i] in kept;
    }
  }

  /** The tenant and house of an entry, and of an assignment. */
  datatype Pair = Pair(tenantId: string, houseId: string)

  function EntryPair(e: UnpaidTenant): Pair
  {
    Pair(e.tenantId, e.houseId)
  }

  function ViewPair(a: AssignmentView): Pair
  {
    Pair(a.tenantId, a.houseId)
  }

  /** The list keeps the order of the assignments. */
  lemma UnpaidInAssignmentOrder(assignments: seq<AssignmentView>, m: map<string, int>)
    ensures IsSubsequence(Map(UnpaidTenants(assignments, m), EntryPair), Map(assignments, ViewPair))
  {
    var kept := Filter(assignments, IsUnpaid(m));
    FilterIsSubsequence(assignments, IsUnpaid(m));
    MapKeepsSubsequence(kept, assignments, ViewPair);
    assert Map(UnpaidTenants(assignments, m), EntryPair) == Map(kept, ViewPair);
  }

  /** With no negative payment, an assignment whose house is missing expects
      0 and is never listed. */
  lemma NoHouseNeverListed(assignments: seq<AssignmentView>, m: map<string, int>, rows: seq<RentPayment>, a: AssignmentView)
    requires IsPaymentMap(m, rows)
    requires forall p :: p in rows ==> p.amount >= 0
    requires a in assignments && a.house.None?
    ensures Row(m)(a) !in UnpaidTenants(assignments, m)
  {
    LookupIsPaidBy(m, rows, a.tenantId);
    SumOfNonNegative(Filter(rows, TenantIs(a.tenantId)), AmountOf);
    ListedIffUnderpaid(assignments, m, a);
  }

  /** `fetchUnpaidTenants` over the whole rent_payments table: the query keeps
      the month's paid rows. */
  method FetchUnpaidTenants(assignments: seq<AssignmentView>, table: seq<RentPayment>, month: MonthKey)
    returns (unpaid: seq<UnpaidTenant>)
    ensures exists m :: IsPaymentMap(m, PaidRowsFor(table, month)) && unpaid == UnpaidTenants(assignments, m)
    ensures forall e :: e in unpaid ==> e.paidAmount == PaidBy(PaidRowsFor(table, month), e.tenantId)
  {
    var m := BuildPaymentMap(PaidRowsFor(table, month));
    unpaid := UnpaidTenants(assignments, m);
    forall e | e in unpaid ensures e.paidAmount == PaidBy(PaidRowsFor(table, month), e.tenantId)
    {
      LookupIsPaidBy(m, PaidRowsFor(table, month), e.tenantId);
    }
  }

  /** The row `addPayment` inserts for an entry; the payment date is left to
      the database's column default, given here as `paymentDate`. */
  function ManualPayment(e: UnpaidTenant, month: MonthKey, paymentDate: Option<Date>): (p: RentPayment)
    ensures p.tenantId == e.tenantId && p.houseId == e.houseId && p.amount == e.outstanding
    ensures p.monthYear == month && p.status == Some("paid") && p.paymentMethod == Some("manual")
    ensures p.paymentReference == Some("Manual entry for " + e.tenantName)
  {
    RentPayment(e.tenantId, e.houseId, e.outstanding, Some("manual"),
                Some("Manual entry for " + e.tenantName), paymentDate, month, Some("paid"))
  }

  /** `addPayment`: insert the outstanding amount as a paid payment of the
      month; nothing changes when the insert fails. */
  method AddPayment(store: Store, e: UnpaidTenant, month: MonthKey, paymentDate: Option<Date>, insertOk: bool)
    modifies store
    ensures insertOk ==> store.payments == old(store.payments) + [ManualPayment(e, month, paymentDate)]
    ensures !insertOk ==> store.payments == old(store.payments)
    ensures store.houses == old(store.houses) && store.assignments == old(store.assignments)
    ensures store.requests == old(store.requests)
  {
    if insertOk {
      store.payments := store.payments + [ManualPayment(e, month, paymentDate)];
    }
  }

  /** After the manual payment the tenant has paid exactly the expected
      amount of the month, so, once the list is fetched again, no assignment
      of that tenant to a house of the same price is listed. */
  lemma ManualPaymentSettles(table: seq<RentPayment>, month: MonthKey, e: UnpaidTenant, paymentDate: Option<Date>,
                             assignments: seq<AssignmentView>, m: map<string, int>, a: AssignmentView)
    requires e.paidAmount == PaidBy(PaidRowsFor(table, month), e.tenantId)
    requires e.outstanding == e.expectedAmount - e.paidAmount
    requires IsPaymentMap(m, PaidRowsFor(table + [ManualPayment(e, month, paymentDate)], month))
    requires a in assignments && a.tenantId == e.tenantId && ExpectedOf(a) == e.expectedAmount
    ensures PaidBy(PaidRowsFor(table + [ManualPayment(e, month, paymentDate)], month), e.tenantId) == e.expectedAmount
    ensures Row(m)(a) !in UnpaidTenants(assignments, m)
  {
    var p := ManualPayment(e, month, paymentDate);
    FilterConcat(table, [p], IsPaidIn(month));
    assert Filter([p], IsPaidIn(month)) == [p];
    PaidByAppend(PaidRowsFor(table, month), p, e.tenantId);
    LookupIsPaidBy(m, PaidRowsFor(table + [p], month), e.tenantId);
    ListedIffUnderpaid(assignments, m, a);
  }
}
