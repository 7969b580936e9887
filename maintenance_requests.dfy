/** The tenant's maintenance requests (src/components/tenant/MaintenanceRequests.tsx):
    the form that submits a request, cancelling a pending request, the label
    of a request type and the badge class of a status. */
module MaintenanceRequests {
  import opened Collections
  import opened Records
  import opened Text
  import TenantDashboard

  /** The `newRequest` form. */
  datatype RequestDraft = RequestDraft(title: string, description: string, requestType: string, priority: string)

  /** The form as it starts and as it is reset after a submission. */
  const InitialDraft := RequestDraft("", "", "", "medium")

  /** Why a submission stopped, or the request it created. */
  datatype CreateOutcome = NoAssignment | MissingFields | InsertFailed | Submitted(request: MaintenanceRequest)

  /** The row the insert creates; `id` is the database's new key. */
  function NewRequest(d: RequestDraft, userId: string, assignment: Assignment, id: string): (r: MaintenanceRequest)
    ensures r.tenantId == userId && r.houseId == assignment.houseId && r.status == Some("pending")
    ensures r.title == d.title && r.requestType == d.requestType
    ensures r.description == Some(d.description) && r.priority == Some(d.priority)
  {
    MaintenanceRequest(id, userId, assignment.houseId, d.title, Some(d.description), d.requestType,
                       Some("pending"), Some(d.priority))
  }

  /** A new request counts among the tenant's open requests on the
      dashboard. */
  lemma NewRequestIsOpen(d: RequestDraft, userId: string, assignment: Assignment, id: string)
    ensures TenantDashboard.OpenRequestOf(userId)(NewRequest(d, userId, assignment, id))
  {
  }

  /** `request.status === 'pending'`: only pending requests offer Cancel.
      A request that offers it is open on the dashboard and wears the orange
      badge. */
  function CanCancel(r: MaintenanceRequest): (offered: bool)
    ensures offered <==> r.status == Some("pending")
    ensures offered ==> TenantDashboard.OpenRequestOf(r.tenantId)(r)
    ensures offered ==> StatusBadgeClass(r.status.value) == "bg-orange-500 text-white"
  {
    r.status == Some("pending")
  }

  /** `update({ status: 'cancelled' }).eq('id', requestId)`. */
  function CancelIn(requests: seq<MaintenanceRequest>, requestId: string): (r: seq<MaintenanceRequest>)
    ensures |r| == |requests|
    ensures forall i :: 0 <= i < |requests| && requests[i].id == requestId ==>
      r[i] == requests[i].(status := Some("cancelled"))
    ensures forall i :: 0 <= i < |requests| && requests[i].id != requestId ==> r[i] == requests[i]
  {
    seq(|requests|, i requires 0 <= i < |requests| =>
      if requests[i].id == requestId then requests[i].(status := Some("cancelled")) else requests[i])
  }

  /** A cancelled request can no longer be cancelled and no longer counts
      among the tenant's open requests; every other request is unchanged. */
  lemma CancelClosesOnlyThatRequest(requests: seq<MaintenanceRequest>, requestId: string, userId: string)
    ensures var after := CancelIn(requests, requestId);
      forall i :: 0 <= i < |after| && after[i].id == requestId ==>
        !CanCancel(after[i]) && !TenantDashboard.OpenRequestOf(userId)(after[i])
    ensures forall r :: r in requests && r.id != requestId ==> r in CancelIn(requests, requestId)
  {
    var after := CancelIn(requests, requestId);
    forall r | r in requests && r.id != requestId ensures r in after
    {
      var i :| 0 <= i < |requests| && requests[i] == r;
      assert after[i] == r;
    }
  }

  /** `getStatusBadgeClass(status)`: the class of a known status, gray for
      any other. */
  function StatusBadgeClass(status: string): (c: string)
    ensures status !in {"pending", "in_progress", "completed"} ==> c == "bg-gray-500 text-white"
    ensures status == "pending" ==> c == "bg-orange-500 text-white"
  {
    if status == "pending" then "bg-orange-500 text-white"
    else if status == "in_progress" then "bg-blue-500 text-white"
    else if status == "completed" then "bg-green-600 text-white"
    else if status == "cancelled" then "bg-gray-500 text-white"
    else "bg-gray-500 text-white"
  }

  /** Distinct known statuses other than "cancelled" get distinct classes. */
  lemma BadgeClassesDistinct(s: string, t: string)
    requires s in {"pending", "in_progress", "completed"} && t in {"pending", "in_progress", "completed"}
    requires s != t
    ensures StatusBadgeClass(s) != StatusBadgeClass(t)
  {
  }

  function UnderscoreToSpace(c: char): char
  {
    if c == '_' then ' ' else c
  }

  /** `getRequestTypeLabel(type)`: the first character upper-cased and every
      '_' after it turned into a space. */
  function RequestTypeLabel(t: string): (shown: string)
    ensures |shown| == |t|
    ensures |t| > 0 ==> shown[0] == UpperChar(t[0])
    ensures forall i :: 1 <= i < |t| ==> shown[i] == (if t[i] == '_' then ' ' else t[i])
  {
    if t == [] then [] else [UpperChar(t[0])] + Map(t[1..], UnderscoreToSpace)
  }

  /** No underscore is left after the first character, and the label of a
      label is the label. */
  lemma RequestTypeLabelNormal(t: string)
    ensures forall i :: 1 <= i < |RequestTypeLabel(t)| ==> RequestTypeLabel(t)[i] != '_'
    ensures RequestTypeLabel(RequestTypeLabel(t)) == RequestTypeLabel(t)
  {
  }

  lemma PestControlLabel()
    ensures RequestTypeLabel("pest_control") == "Pest control"
  {
  }

  /** The screen's form state. */
  class RequestScreen {
    var newRequest: RequestDraft
    var showDialog: bool

    constructor ()
      ensures newRequest == InitialDraft && !showDialog
    {
      newRequest := InitialDraft;
      showDialog := false;
    }

    /** `createRequest`: refuse without an assignment, then without a title
        or a type; otherwise insert a pending request for the tenant's house
        and reset the form. A failed insert changes nothing. */
    method CreateRequest(store: Store, userId: string, assignment: Option<Assignment>, newId: string, insertOk: bool)
      returns (outcome: CreateOutcome)
      modifies this, store
      ensures assignment.None? ==> outcome == NoAssignment
      ensures assignment.Some? && (old(newRequest.title) == "" || old(newRequest.requestType) == "") ==>
        outcome == MissingFields
      ensures outcome.Submitted? <==>
        assignment.Some? && old(newRequest.title) != "" && old(newRequest.requestType) != "" && insertOk
      ensures outcome.Submitted? ==>
        outcome.request == NewRequest(old(newRequest), userId, assignment.value, newId) &&
        store.requests == old(store.requests) + [outcome.request] &&
        newRequest == InitialDraft && !showDialog
      ensures !outcome.Submitted? ==>
        store.requests == old(store.requests) && newRequest == old(newRequest) && showDialog == old(showDialog)
      ensures store.houses == old(store.houses) && store.assignments == old(store.assignments)
      ensures store.payments == old(store.payments)
    {
      if assignment.None? {
        return NoAssignment;
      }
      if newRequest.title == "" || newRequest.requestType == "" {
        return MissingFields;
      }
      if !insertOk {
        return InsertFailed;
      }
      var request := NewRequest(newRequest, userId, assignment.value, newId);
      store.requests := store.requests + [request];
      newRequest := InitialDraft;
      showDialog := false;
      outcome := Submitted(request);
    }
  }

  /** `cancelRequest(requestId)`; a failed update changes nothing. */
  method CancelRequest(store: Store, requestId: string, updateOk: bool)
    modifies store
    ensures store.requests == if updateOk then CancelIn(old(store.requests), requestId) else old(store.requests)
    ensures store.houses == old(store.houses) && store.assignments == old(store.assignments)
    ensures store.payments == old(store.payments)
  {
    if updateOk {
      store.requests := CancelIn(store.requests, requestId);
    }
  }
}
