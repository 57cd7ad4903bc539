/** The admin panel's list logic (src/app/admin/page.tsx): the status
    filter, the pending count and the approve/reject actions offered per
    request. */
module AdminPanel {
  import Approvals
  import AdminRequests

  type RequestView = AdminRequests.RequestView

  /** The panel's filter: every request, or those with one status. */
  datatype Filter = All | Only(status: Approvals.Status)

  predicate Shows(f: Filter, v: RequestView) {
    f.All? || v.status == f.status
  }

  /** `filteredRequests`. */
  function Filtered(requests: seq<RequestView>, f: Filter): (r: seq<RequestView>)
    ensures |r| <= |requests|
    ensures f == All ==> r == requests
    ensures forall v :: v in r <==> v in requests && Shows(f, v)
  {
    if requests == [] then []
    else (if Shows(f, requests[0]) then [requests[0]] else []) + Filtered(requests[1..], f)
  }

  /** `pendingCount`: the length of the pending filter. */
  function PendingCount(requests: seq<RequestView>): (n: nat)
    ensures n <= |requests|
  {
    |Filtered(requests, Only(Approvals.Pending))|
  }

  /** `a` occurs in `b` with its elements in the same relative order. */
  predicate SubsequenceOf<T(==)>(a: seq<T>, b: seq<T>)
    decreases |b|
  {
    a == [] || (b != [] && if a[0] == b[0] then SubsequenceOf(a[1..], b[1..]) else SubsequenceOf(a, b[1..]))
  }

  function Statuses(requests: seq<RequestView>): (r: seq<Approvals.Status>)
    ensures |r| == |requests| && forall i :: 0 <= i < |r| ==> r[i] == requests[i].status
  {
    seq(|requests|, i requires 0 <= i < |requests| => requests[i].status)
  }

  /** The filtered list keeps the requests' relative order. */
  lemma {:induction false} FilteredIsSubsequence(requests: seq<RequestView>, f: Filter)
    ensures SubsequenceOf(Filtered(requests, f), requests)
    decreases |requests|
  {
    if requests != [] {
      FilteredIsSubsequence(requests[1..], f);
      var rest := Filtered(requests[1..], f);
      if Shows(f, requests[0]) {
        assert Filtered(requests, f) == [requests[0]] + rest;
        assert ([requests[0]] + rest)[1..] == rest;
      } else {
        assert Filtered(requests, f) == rest;
        SubsequenceDropFront(rest, requests);
      }
    }
  }

  lemma {:induction false} SubsequenceDropFront<T>(a: seq<T>, b: seq<T>)
    requires b != [] && SubsequenceOf(a, b[1..])
    ensures SubsequenceOf(a, b)
    decreases |b|, 0
  {
    if a != [] && a[0] == b[0] {
      SubsequenceOfTail(a, b[1..]);
    }
  }

  lemma {:induction false} SubsequenceOfTail<T>(a: seq<T>, b: seq<T>)
    requires a != [] && SubsequenceOf(a, b)
    ensures SubsequenceOf(a[1..], b)
    decreases |b|, 1
  {
    if a[0] == b[0] {
      if a[1..] != [] {
        SubsequenceOfTail(a[1..], b[1..]);
        SubsequenceDropFront(a[1..], b);
      }
    } else {
      SubsequenceOfTail(a, b[1..]);
      SubsequenceDropFront(a[1..], b);
    }
  }

  /** Filtering distributes over concatenation. */
  lemma {:induction false} FilteredAppend(a: seq<RequestView>, b: seq<RequestView>, f: Filter)
    ensures Filtered(a + b, f) == Filtered(a, f) + Filtered(b, f)
    decreases |a|
  {
    if a == [] {
      assert a + b == b;
    } else {
      assert (a + b)[0] == a[0] && (a + b)[1..] == a[1..] + b;
      FilteredAppend(a[1..], b, f);
    }
  }

  /** The pending count is the number of requests whose status is pending. */
  lemma {:induction false} PendingCountCounts(requests: seq<RequestView>)
    ensures PendingCount(requests) == multiset(Statuses(requests))[Approvals.Pending]
    decreases |requests|
  {
    if requests != [] {
      PendingCountCounts(requests[1..]);
      assert Statuses(requests) == [requests[0].status] + Statuses(requests[1..]);
    }
  }

  /** The buttons shown under a request. */
  datatype Action = Approve(requestId: string) | Reject(requestId: string)

  /** What `handleAction` posts to the approval-response route. */
  function ActionBody(a: Action): (body: (string, bool))
    ensures body.0 == a.requestId && (body.1 <==> a.Approve?)
  {
    match a
    case Approve(id) => (id, true)
    case Reject(id) => (id, false)
  }

  /** Approve and Reject are offered only for a pending request, and both
      carry its id. */
  function Actions(v: RequestView): (r: seq<Action>)
    ensures r != [] <==> v.status == Approvals.Pending
    ensures forall a :: a in r ==> a.requestId == v.id
    ensures r != [] ==> Approve(v.id) in r && Reject(v.id) in r
  {
    if v.status == Approvals.Pending then [Approve(v.id), Reject(v.id)] else []
  }

  /** Pressing a button on a listed request that was created by the
      request-approval route records that decision for the invoice page's
      poll to see. */
  lemma ActionReachesPoll(docs: seq<Approvals.ApprovalDoc>, now: string, at: string, i: nat, a: Action)
    requires i < |docs| && docs[i].requestId != ""
    requires a in Actions(AdminRequests.ListRequests(docs, true, now)[i])
    ensures var (id, approved) := ActionBody(a);
            Approvals.Poll(Approvals.Decide(docs, id, Approvals.Decision(approved), at), id, true)
            == Approvals.StatusOf(if a.Approve? then "approved" else "rejected")
  {
    var (id, approved) := ActionBody(a);
    assert id == docs[i].requestId;
    Approvals.DecisionVisibleToPoll(docs, id, approved, at);
  }
}
