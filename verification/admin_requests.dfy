/** `GET /api/admin/requests` (src/app/api/admin/requests/route.ts): every
    stored approval document projected to the record the admin panel shows.
    The current time is a parameter. */
module AdminRequests {
  import opened Wrappers
  import Approvals

  /** The record the admin panel receives for one approval request. */
  datatype RequestView = RequestView(
    id: string,
    invoiceNo: string,
    customerName: string,
    amount: string,
    propertyName: string,
    status: Approvals.Status,
    createdAt: string,
    respondedAt: Option<string>)

  /** A stored time as text: a `Date` becomes its ISO text, a non-empty
      string is kept, and a missing or empty value has no text. */
  function StampText(s: Approvals.Stamp): (r: Option<string>)
    ensures r.Some? <==> s.DateStamp? || (s.TextStamp? && s.text != "")
    ensures s.DateStamp? ==> r == Some(s.iso)
    ensures s.TextStamp? && s.text != "" ==> r == Some(s.text)
  {
    match s
    case NoStamp => None
    case DateStamp(iso) => Some(iso)
    case TextStamp(t) => if t == "" then None else Some(t)
  }

  /** The projection of one document; `now` stands in for a missing
      creation time. */
  function ToView(d: Approvals.ApprovalDoc, now: string): (v: RequestView)
    ensures v.id == (if d.requestId != "" then d.requestId else d.objectId)
    ensures v.invoiceNo == d.invoiceNo && v.customerName == d.customerName
    ensures v.amount == d.amount && v.propertyName == d.propertyName && v.status == d.status
    ensures v.createdAt == StampText(d.createdAt).GetOr(now)
    ensures v.respondedAt == StampText(d.respondedAt)
  {
    RequestView(
      if d.requestId != "" then d.requestId else d.objectId,
      d.invoiceNo, d.customerName, d.amount, d.propertyName, d.status,
      StampText(d.createdAt).GetOr(now),
      StampText(d.respondedAt))
  }

  /** The `requests` list of the response: one view per stored document, in
      storage order; a failed read gives the empty list. */
  function ListRequests(docs: seq<Approvals.ApprovalDoc>, readOk: bool, now: string): (r: seq<RequestView>)
    ensures |r| == (if readOk then |docs| else 0)
    ensures readOk ==> forall i :: 0 <= i < |docs| ==> r[i] == ToView(docs[i], now)
  {
    if !readOk then [] else seq(|docs|, i requires 0 <= i < |docs| => ToView(docs[i], now))
  }

  /** A record created by the request-approval route shows up under its
      request id, pending, created at the time it was saved, not yet
      answered. */
  lemma NewRequestView(objectId: string, requestId: string, invoiceNo: string, customerName: string,
                       amount: string, propertyName: string, created: string, now: string)
    requires requestId != "" && created != ""
    ensures var v := ToView(Approvals.PendingRecord(objectId, requestId, invoiceNo, customerName,
                                                    amount, propertyName, created), now);
            v.id == requestId && v.status == Approvals.Pending && v.createdAt == created
            && v.respondedAt == None && v.invoiceNo == invoiceNo && v.amount == amount
  {
  }

  /** After a decision the listed record carries it, at the same position,
      and every other listed record is unchanged. */
  lemma DecisionListed(docs: seq<Approvals.ApprovalDoc>, requestId: string, status: Approvals.Status,
                       at: string, now: string)
    requires requestId != "" && at != "" && Approvals.Lookup(docs, requestId).Some?
    ensures var i := Approvals.FindFirst(docs, requestId).value;
            var before := ListRequests(docs, true, now);
            var after := ListRequests(Approvals.Decide(docs, requestId, status, at), true, now);
            |after| == |before|
            && after[i] == before[i].(status := status, respondedAt := Some(at))
            && forall j :: 0 <= j < |before| && j != i ==> after[j] == before[j]
  {
    var i := Approvals.FindFirst(docs, requestId).value;
    var r := Approvals.Decide(docs, requestId, status, at);
    assert r == docs[i := docs[i].(status := status, respondedAt := Approvals.TextStamp(at))];
  }
}
