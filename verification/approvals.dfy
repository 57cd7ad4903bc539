/** The approval-request collection and the two routes that write it:
    src/app/api/request-approval/route.ts (create a pending record, notify
    every subscribed admin, drop subscriptions whose push service answered
    410) and src/app/api/approval-response/route.ts (record a decision; poll
    for the status).

    The collection is a sequence of documents in storage order; `findOne`
    and `updateOne` act on the first document whose `requestId` matches.
    The clock, the random part of the request id, the generated `_id` and
    every database or push failure are parameters. */
module Approvals {
  import opened Wrappers
  import Subscriptions

  datatype Status = Pending | Approved | Rejected

  /** The text stored in and returned for each status. */
  function StatusText(s: Status): (t: string)
    ensures t in {"pending", "approved", "rejected"}
    ensures t != "not_found"
  {
    match s
    case Pending => "pending"
    case Approved => "approved"
    case Rejected => "rejected"
  }

  /** A stored time field: missing, a `Date` (held as its ISO text), or a
      plain string. */
  datatype Stamp = NoStamp | DateStamp(iso: string) | TextStamp(text: string)

  /** A document of the `approval_requests` collection. A missing
      `requestId` is the empty string. */
  datatype ApprovalDoc = ApprovalDoc(
    objectId: string,
    requestId: string,
    invoiceNo: string,
    customerName: string,
    amount: string,
    propertyName: string,
    status: Status,
    createdAt: Stamp,
    respondedAt: Stamp)

  /** The record `POST /api/request-approval` inserts. */
  function PendingRecord(objectId: string, requestId: string, invoiceNo: string, customerName: string,
                         amount: string, propertyName: string, now: string): (d: ApprovalDoc)
    ensures d.status == Pending && d.requestId == requestId && d.objectId == objectId
    ensures d.invoiceNo == invoiceNo && d.customerName == customerName
    ensures d.amount == amount && d.propertyName == propertyName
    ensures d.createdAt == TextStamp(now) && d.respondedAt == NoStamp
  {
    ApprovalDoc(objectId, requestId, invoiceNo, customerName, amount, propertyName,
                Pending, TextStamp(now), NoStamp)
  }

  /** `approved ? 'approved' : 'rejected'`. */
  function Decision(approved: bool): (s: Status)
    ensures s != Pending
    ensures s == Approved <==> approved
  {
    if approved then Approved else Rejected
  }

  /** The position of the first document with the request id. */
  function FindFirst(docs: seq<ApprovalDoc>, requestId: string): (r: Option<nat>)
    ensures r.Some? ==> r.value < |docs| && docs[r.value].requestId == requestId
                        && forall j :: 0 <= j < r.value ==> docs[j].requestId != requestId
    ensures r.None? ==> forall j :: 0 <= j < |docs| ==> docs[j].requestId != requestId
  {
    if docs == [] then None
    else if docs[0].requestId == requestId then Some(0)
    else match FindFirst(docs[1..], requestId)
      case None => None
      case Some(k) => Some(k + 1)
  }

  /** `findOne({ requestId })`. */
  function Lookup(docs: seq<ApprovalDoc>, requestId: string): (r: Option<ApprovalDoc>)
    ensures r.Some? <==> exists j :: 0 <= j < |docs| && docs[j].requestId == requestId
    ensures r.Some? ==> r.value in docs && r.value.requestId == requestId
  {
    match FindFirst(docs, requestId)
    case None => None
    case Some(i) => Some(docs[i])
  }

  /** `updateOne({ requestId }, { $set: { status, respondedAt } })`. */
  function Decide(docs: seq<ApprovalDoc>, requestId: string, status: Status, at: string): (r: seq<ApprovalDoc>)
    ensures |r| == |docs|
    ensures forall j :: 0 <= j < |docs| && docs[j].requestId != requestId ==> r[j] == docs[j]
  {
    match FindFirst(docs, requestId)
    case None => docs
    case Some(i) => docs[i := docs[i].(status := status, respondedAt := TextStamp(at))]
  }

  /** The answers of `GET /api/approval-response`. */
  datatype StatusReply = StatusOf(status: string) | StatusMissingId

  /** `GET`: the stored status, `not_found` for an unknown id (a failed read
      counts as unknown), 400 without an id. */
  function Poll(docs: seq<ApprovalDoc>, requestId: string, readOk: bool): (r: StatusReply)
    ensures requestId == "" <==> r == StatusMissingId
    ensures r == StatusOf("not_found") <==> requestId != "" && (!readOk || Lookup(docs, requestId).None?)
    ensures requestId != "" && readOk && Lookup(docs, requestId).Some? ==>
              r == StatusOf(StatusText(Lookup(docs, requestId).value.status))
  {
    if requestId == "" then StatusMissingId
    else if !readOk then StatusOf("not_found")
    else match Lookup(docs, requestId)
      case None => StatusOf("not_found")
      case Some(d) => StatusOf(StatusText(d.status))
  }

  // ---------------------------------------------------------------------
  // Facts about the collection operations

  /** The first match is at `i` when `i` matches and nothing before it does. */
  lemma {:induction false} FindFirstAt(docs: seq<ApprovalDoc>, requestId: string, i: nat)
    requires i < |docs| && docs[i].requestId == requestId
    requires forall j :: 0 <= j < i ==> docs[j].requestId != requestId
    ensures FindFirst(docs, requestId) == Some(i)
    decreases i
  {
    if i > 0 {
      assert forall j :: 0 <= j < i - 1 ==> docs[1..][j] == docs[j + 1];
      FindFirstAt(docs[1..], requestId, i - 1);
    }
  }

  /** Two collections whose documents match an id at the same positions
      find the same first match. */
  lemma {:induction false} SameMatches(a: seq<ApprovalDoc>, b: seq<ApprovalDoc>, requestId: string)
    requires |a| == |b|
    requires forall j :: 0 <= j < |a| ==> (a[j].requestId == requestId <==> b[j].requestId == requestId)
    ensures FindFirst(a, requestId) == FindFirst(b, requestId)
    decreases |a|
  {
    if a != [] {
      assert forall j :: 0 <= j < |a| - 1 ==> a[1..][j] == a[j + 1] && b[1..][j] == b[j + 1];
      SameMatches(a[1..], b[1..], requestId);
    }
  }

  /** A freshly inserted record is found by its id and polls as pending,
      provided no earlier record carries the same id. */
  lemma InsertedIsPending(docs: seq<ApprovalDoc>, d: ApprovalDoc)
    requires d.requestId != "" && d.status == Pending
    requires Lookup(docs, d.requestId).None?
    ensures Lookup(docs + [d], d.requestId) == Some(d)
    ensures Poll(docs + [d], d.requestId, true) == StatusOf("pending")
  {
    var all := docs + [d];
    assert forall j :: 0 <= j < |docs| ==> all[j] == docs[j];
    FindFirstAt(all, d.requestId, |docs|);
  }

  /** After a decision, the record holds the decision and the response
      time, and nothing else about it has changed. */
  lemma DecideThenLookup(docs: seq<ApprovalDoc>, requestId: string, status: Status, at: string)
    requires Lookup(docs, requestId).Some?
    ensures Lookup(Decide(docs, requestId, status, at), requestId)
            == Some(Lookup(docs, requestId).value.(status := status, respondedAt := TextStamp(at)))
  {
    var i := FindFirst(docs, requestId).value;
    FindFirstAt(Decide(docs, requestId, status, at), requestId, i);
  }

  /** A decision on one id does not change what any other id finds. */
  lemma DecideFrame(docs: seq<ApprovalDoc>, requestId: string, other: string, status: Status, at: string)
    requires other != requestId
    ensures Lookup(Decide(docs, requestId, status, at), other) == Lookup(docs, other)
  {
    var r := Decide(docs, requestId, status, at);
    assert forall j :: 0 <= j < |docs| ==> r[j].requestId == docs[j].requestId;
    SameMatches(r, docs, other);
  }

  /** Nothing guards the current status: a second decision on the same id
      replaces the first completely. */
  lemma LaterDecisionWins(docs: seq<ApprovalDoc>, requestId: string,
                          s1: Status, at1: string, s2: Status, at2: string)
    ensures Decide(Decide(docs, requestId, s1, at1), requestId, s2, at2) == Decide(docs, requestId, s2, at2)
  {
    var once := Decide(docs, requestId, s1, at1);
    assert forall j :: 0 <= j < |docs| ==> once[j].requestId == docs[j].requestId;
    SameMatches(once, docs, requestId);
  }

  /** What an admin's decision is seen as by the invoice page that polls. */
  lemma DecisionVisibleToPoll(docs: seq<ApprovalDoc>, requestId: string, approved: bool, at: string)
    requires requestId != "" && Lookup(docs, requestId).Some?
    ensures Poll(Decide(docs, requestId, Decision(approved), at), requestId, true)
            == StatusOf(if approved then "approved" else "rejected")
  {
    DecideThenLookup(docs, requestId, Decision(approved), at);
  }

  lemma {:induction false} PruneKeepsValid(list: seq<Subscriptions.Subscription>, gone: set<string>)
    requires Subscriptions.UniqueEndpoints(list) && !Subscriptions.HasEndpoint(list, "")
    ensures Subscriptions.UniqueEndpoints(Subscriptions.Prune(list, gone))
    ensures !Subscriptions.HasEndpoint(Subscriptions.Prune(list, gone), "")
    decreases |list|
  {
    Subscriptions.PruneEndpoints(list, gone, "");
    if list != [] {
      PruneKeepsValid(list[1..], gone);
      var rest := Subscriptions.Prune(list[1..], gone);
      Subscriptions.PruneEndpoints(list[1..], gone, list[0].endpoint);
      var r := Subscriptions.Prune(list, gone);
      if list[0].endpoint in gone {
        assert r == rest;
      } else {
        assert r[0] == list[0] && r[1..] == rest;
      }
    }
  }

  /** One step of the removal loop, for a subscription in `gone`: deleting
      its endpoint from the processed part followed by the rest removes
      exactly that subscription. */
  lemma PruneStepGone(a: seq<Subscriptions.Subscription>, x: Subscriptions.Subscription,
                      b: seq<Subscriptions.Subscription>, gone: set<string>)
    requires !Subscriptions.HasEndpoint(a, x.endpoint) && x.endpoint in gone
    ensures Subscriptions.DeleteFirst(Subscriptions.Prune(a, gone) + ([x] + b), x.endpoint)
            == Subscriptions.Prune(a + [x], gone) + b
  {
    var done := Subscriptions.Prune(a, gone);
    Subscriptions.PruneAppend(a, [x], gone);
    PruneOne(x, gone);
    assert Subscriptions.Prune(a + [x], gone) == done;
    Subscriptions.PruneEndpoints(a, gone, x.endpoint);
    Subscriptions.DeleteFirstAt(done, x, b);
    assert done + ([x] + b) == done + [x] + b;
  }

  /** The same step for a subscription whose push succeeded. */
  lemma PruneStepKept(a: seq<Subscriptions.Subscription>, x: Subscriptions.Subscription,
                      b: seq<Subscriptions.Subscription>, gone: set<string>)
    requires x.endpoint !in gone
    ensures Subscriptions.Prune(a, gone) + ([x] + b) == Subscriptions.Prune(a + [x], gone) + b
  {
    Subscriptions.PruneAppend(a, [x], gone);
    PruneOne(x, gone);
    var done := Subscriptions.Prune(a, gone);
    assert Subscriptions.Prune(a + [x], gone) == done + [x];
    assert done + ([x] + b) == (done + [x]) + b;
  }

  lemma PruneOne(x: Subscriptions.Subscription, gone: set<string>)
    ensures Subscriptions.Prune([x], gone) == if x.endpoint in gone then [] else [x]
  {
    assert [x][1..] == [];
  }

  // ---------------------------------------------------------------------
  // The collection and the routes

  class ApprovalStore {
    var docs: seq<ApprovalDoc>

    constructor ()
      ensures docs == []
    {
      docs := [];
    }

    /** `insertOne`. */
    method Insert(d: ApprovalDoc)
      modifies this
      ensures docs == old(docs) + [d]
    {
      docs := docs + [d];
    }

    /** `POST /api/approval-response`: record `approved` or `rejected` and
        the response time on the request, if it exists. A failed read
        counts as an unknown id; a failed update is a server error and
        changes nothing. */
    method Respond(requestId: string, approved: bool, now: string, readOk: bool, writeOk: bool)
      returns (resp: DecisionResponse)
      modifies this
      ensures requestId == "" ==> resp == MissingId && docs == old(docs)
      ensures requestId != "" && (!readOk || Lookup(old(docs), requestId).None?) ==>
                resp == UnknownId && docs == old(docs)
      ensures requestId != "" && readOk && Lookup(old(docs), requestId).Some? ==>
                if writeOk then resp == Responded(Decision(approved))
                                && docs == Decide(old(docs), requestId, Decision(approved), now)
                else resp == DecisionFailed && docs == old(docs)
      ensures resp.Responded? ==> Poll(docs, requestId, true) == StatusOf(StatusText(resp.status))
    {
      if requestId == "" {
        return MissingId;
      }
      var found := if readOk then Lookup(docs, requestId) else None;
      if found.None? {
        return UnknownId;
      }
      if !writeOk {
        return DecisionFailed;
      }
      DecideThenLookup(docs, requestId, Decision(approved), now);
      docs := Decide(docs, requestId, Decision(approved), now);
      resp := Responded(Decision(approved));
    }
  }

  /** The answers of `POST /api/approval-response`. */
  datatype DecisionResponse = Responded(status: Status) | MissingId | UnknownId | DecisionFailed

  /** The answers of `POST /api/request-approval`. */
  datatype RequestResponse = Requested(requestId: string, subscriberCount: nat) | RequestFailed

  /** No subscription of `list` both answered 410 and had its deletion
      fail. */
  predicate DeletionsSucceed(list: seq<Subscriptions.Subscription>, gone: set<string>, failing: set<string>) {
    forall j :: 0 <= j < |list| ==> !(list[j].endpoint in gone && list[j].endpoint in failing)
  }

  /** The push loop of `POST /api/request-approval`: every subscription in
      `list` whose push answered 410 is deleted by endpoint, unless that
      deletion fails (`failing`); `ok` is false when one did. */
  method DropGone(subs: Subscriptions.SubscriptionStore, list: seq<Subscriptions.Subscription>,
                  gone: set<string>, failing: set<string>)
    returns (ok: bool)
    requires Subscriptions.UniqueEndpoints(list) && !Subscriptions.HasEndpoint(list, "")
    requires subs.subs == list || list == []
    modifies subs
    ensures subs.subs == (if list == [] then old(subs.subs) else Subscriptions.Prune(list, gone - failing))
    ensures ok <==> DeletionsSucceed(list, gone, failing)
    ensures list != [] ==> subs.Valid()
  {
    ok := true;
    if list == [] {
      return;
    }
    var drop := gone - failing;
    var i := 0;
    while i < |list|
      invariant 0 <= i <= |list|
      invariant subs.subs == Subscriptions.Prune(list[..i], drop) + list[i..]
      invariant ok <==> DeletionsSucceed(list[..i], gone, failing)
    {
      PruneStep(list, i, drop);
      SucceedStep(list, i, gone, failing);
      if list[i].endpoint in drop {
        subs.DeleteOne(list[i].endpoint);
      } else if list[i].endpoint in gone {
        ok := false;
      }
      i := i + 1;
    }
    assert list[..|list|] == list;
    PruneKeepsValid(list, drop);
  }

  lemma SucceedStep(list: seq<Subscriptions.Subscription>, i: nat, gone: set<string>, failing: set<string>)
    requires i < |list|
    ensures DeletionsSucceed(list[..i + 1], gone, failing) <==>
              DeletionsSucceed(list[..i], gone, failing) && !(list[i].endpoint in gone && list[i].endpoint in failing)
  {
    assert list[..i + 1] == list[..i] + [list[i]];
  }

  /** One turn of the removal loop, stated on the list and the position:
      a subscription in `gone` is deleted by endpoint, any other is kept. */
  lemma PruneStep(list: seq<Subscriptions.Subscription>, i: nat, gone: set<string>)
    requires Subscriptions.UniqueEndpoints(list) && i < |list|
    ensures list[i].endpoint in gone ==>
              Subscriptions.DeleteFirst(Subscriptions.Prune(list[..i], gone) + list[i..], list[i].endpoint)
              == Subscriptions.Prune(list[..i + 1], gone) + list[i + 1..]
    ensures list[i].endpoint !in gone ==>
              Subscriptions.Prune(list[..i], gone) + list[i..]
              == Subscriptions.Prune(list[..i + 1], gone) + list[i + 1..]
  {
    assert list[..i + 1] == list[..i] + [list[i]];
    assert list[i..] == [list[i]] + list[i + 1..];
    Subscriptions.UniqueBefore(list, i);
    if list[i].endpoint in gone {
      PruneStepGone(list[..i], list[i], list[i + 1..], gone);
    } else {
      PruneStepKept(list[..i], list[i], list[i + 1..], gone);
    }
  }

  /** `POST /api/request-approval`: save a pending record under
      `req_<stamp>`, then push to every stored subscription and delete,
      by endpoint, each one whose push service answered 410 (`gone`). A
      failed read of the subscriptions is an empty list. A deletion that
      fails (`failing`) makes the route answer 500 although the pending
      record is already stored. The pushes are awaited together in the
      source; here they run in list order. */
  method RequestApproval(store: ApprovalStore, subs: Subscriptions.SubscriptionStore,
                         stamp: string, now: string, objectId: string,
                         invoiceNo: string, customerName: string, amount: string, propertyName: string,
                         insertOk: bool, readOk: bool, gone: set<string>, failing: set<string>)
    returns (resp: RequestResponse)
    requires subs.Valid()
    modifies store, subs
    ensures subs.Valid()
    ensures !insertOk ==> resp == RequestFailed && store.docs == old(store.docs) && subs.subs == old(subs.subs)
    ensures insertOk ==>
              resp == (if !readOk || DeletionsSucceed(old(subs.subs), gone, failing)
                       then Requested("req_" + stamp, if readOk then |old(subs.subs)| else 0)
                       else RequestFailed)
              && store.docs == old(store.docs)
                 + [PendingRecord(objectId, "req_" + stamp, invoiceNo, customerName, amount, propertyName, now)]
              && subs.subs == (if readOk then Subscriptions.Prune(old(subs.subs), gone - failing) else old(subs.subs))
    ensures resp.Requested? ==> resp.requestId[..4] == "req_"
  {
    var requestId := "req_" + stamp;
    if !insertOk {
      return RequestFailed;
    }
    store.Insert(PendingRecord(objectId, requestId, invoiceNo, customerName, amount, propertyName, now));
    var list: seq<Subscriptions.Subscription> := if readOk then subs.subs else [];
    var ok := DropGone(subs, list, gone, failing);
    assert !readOk || subs.subs == old(subs.subs) || list != [];
    resp := if ok then Requested(requestId, |list|) else RequestFailed;
  }
}
