/** The push-subscription collection and the subscribe route
    (src/app/api/subscribe/route.ts), plus the single-document delete the
    approval route uses for subscriptions whose push service answered 410
    (src/app/api/request-approval/route.ts:77-80).

    The collection is a sequence of subscriptions in storage order. Database
    failures are parameters of the operations that can meet them. */
module Subscriptions {
  import opened Wrappers

  /** A browser push subscription; everything but the endpoint is opaque. */
  datatype Subscription = Subscription(endpoint: string, keys: string)

  /** Whether some subscription in the list has the endpoint. */
  predicate HasEndpoint(list: seq<Subscription>, endpoint: string) {
    list != [] && (list[0].endpoint == endpoint || HasEndpoint(list[1..], endpoint))
  }

  /** No endpoint occurs twice. */
  predicate UniqueEndpoints(list: seq<Subscription>) {
    list == [] || (!HasEndpoint(list[1..], list[0].endpoint) && UniqueEndpoints(list[1..]))
  }

  /** `subs.filter(s => s.endpoint !== endpoint)`. */
  function Without(list: seq<Subscription>, endpoint: string): (r: seq<Subscription>)
    ensures |r| <= |list|
  {
    if list == [] then []
    else (if list[0].endpoint != endpoint then [list[0]] else []) + Without(list[1..], endpoint)
  }

  /** `deleteOne({ endpoint })`: the first subscription with that endpoint
      is removed, if there is one. */
  function DeleteFirst(list: seq<Subscription>, endpoint: string): (r: seq<Subscription>)
    ensures HasEndpoint(list, endpoint) ==> |r| == |list| - 1
    ensures !HasEndpoint(list, endpoint) ==> r == list
  {
    if list == [] then []
    else if list[0].endpoint == endpoint then list[1..]
    else [list[0]] + DeleteFirst(list[1..], endpoint)
  }

  /** The subscriptions whose endpoint is not in `gone`, in order. */
  function Prune(list: seq<Subscription>, gone: set<string>): (r: seq<Subscription>)
    ensures |r| <= |list|
  {
    if list == [] then []
    else (if list[0].endpoint in gone then [] else [list[0]]) + Prune(list[1..], gone)
  }

  // ---------------------------------------------------------------------
  // Facts about the list operations

  lemma {:induction false} HasEndpointAppend(a: seq<Subscription>, b: seq<Subscription>, e: string)
    ensures HasEndpoint(a + b, e) <==> HasEndpoint(a, e) || HasEndpoint(b, e)
    decreases |a|
  {
    if a == [] {
      assert a + b == b;
    } else {
      assert (a + b)[0] == a[0] && (a + b)[1..] == a[1..] + b;
      HasEndpointAppend(a[1..], b, e);
    }
  }

  /** Filtering removes exactly the endpoint it filters on. */
  lemma {:induction false} WithoutEndpoints(list: seq<Subscription>, e: string, x: string)
    ensures HasEndpoint(Without(list, e), x) <==> HasEndpoint(list, x) && x != e
    decreases |list|
  {
    if list != [] {
      WithoutEndpoints(list[1..], e, x);
      HasEndpointAppend(if list[0].endpoint != e then [list[0]] else [], Without(list[1..], e), x);
    }
  }

  /** Filtering keeps the relative order: it distributes over concatenation. */
  lemma {:induction false} WithoutAppend(a: seq<Subscription>, b: seq<Subscription>, e: string)
    ensures Without(a + b, e) == Without(a, e) + Without(b, e)
    decreases |a|
  {
    if a == [] {
      assert a + b == b;
    } else {
      assert (a + b)[0] == a[0] && (a + b)[1..] == a[1..] + b;
      WithoutAppend(a[1..], b, e);
      var h := if a[0].endpoint == e then [] else [a[0]];
      assert Without(a + b, e) == h + Without(a[1..] + b, e);
      assert Without(a, e) == h + Without(a[1..], e);
      assert h + (Without(a[1..], e) + Without(b, e)) == (h + Without(a[1..], e)) + Without(b, e);
    }
  }

  /** The filter keeps exactly the subscriptions with another endpoint. */
  lemma {:induction false} WithoutMembers(list: seq<Subscription>, e: string)
    ensures forall s :: s in Without(list, e) <==> s in list && s.endpoint != e
    decreases |list|
  {
    if list != [] {
      WithoutMembers(list[1..], e);
      assert forall s :: s in list <==> s == list[0] || s in list[1..];
    }
  }

  lemma {:induction false} PruneAppend(a: seq<Subscription>, b: seq<Subscription>, gone: set<string>)
    ensures Prune(a + b, gone) == Prune(a, gone) + Prune(b, gone)
    decreases |a|
  {
    if a == [] {
      assert a + b == b;
    } else {
      assert (a + b)[0] == a[0] && (a + b)[1..] == a[1..] + b;
      PruneAppend(a[1..], b, gone);
      var h := if a[0].endpoint in gone then [] else [a[0]];
      assert Prune(a + b, gone) == h + Prune(a[1..] + b, gone);
      assert Prune(a, gone) == h + Prune(a[1..], gone);
      assert h + (Prune(a[1..], gone) + Prune(b, gone)) == (h + Prune(a[1..], gone)) + Prune(b, gone);
    }
  }

  /** The removal keeps exactly the subscriptions whose endpoint is not
      in `gone`. */
  lemma {:induction false} PruneMembers(list: seq<Subscription>, gone: set<string>)
    ensures forall s :: s in Prune(list, gone) <==> s in list && s.endpoint !in gone
    decreases |list|
  {
    if list != [] {
      PruneMembers(list[1..], gone);
      assert forall s :: s in list <==> s == list[0] || s in list[1..];
    }
  }

  lemma {:induction false} PruneEndpoints(list: seq<Subscription>, gone: set<string>, x: string)
    ensures HasEndpoint(Prune(list, gone), x) ==> HasEndpoint(list, x)
    decreases |list|
  {
    if list != [] {
      PruneEndpoints(list[1..], gone, x);
      HasEndpointAppend(if list[0].endpoint in gone then [] else [list[0]], Prune(list[1..], gone), x);
    }
  }

  lemma {:induction false} WithoutAbsent(list: seq<Subscription>, e: string)
    requires !HasEndpoint(list, e)
    ensures Without(list, e) == list
    decreases |list|
  {
    if list != [] {
      WithoutAbsent(list[1..], e);
      assert list == [list[0]] + list[1..];
    }
  }

  /** With unique endpoints, deleting the first match and filtering agree. */
  lemma {:induction false} DeleteFirstIsWithout(list: seq<Subscription>, e: string)
    requires UniqueEndpoints(list)
    ensures DeleteFirst(list, e) == Without(list, e)
    decreases |list|
  {
    if list != [] {
      if list[0].endpoint == e {
        WithoutAbsent(list[1..], e);
      } else {
        DeleteFirstIsWithout(list[1..], e);
      }
    }
  }

  /** Filtering keeps endpoints unique. */
  lemma {:induction false} WithoutKeepsUnique(list: seq<Subscription>, e: string)
    requires UniqueEndpoints(list)
    ensures UniqueEndpoints(Without(list, e))
    decreases |list|
  {
    if list != [] {
      WithoutKeepsUnique(list[1..], e);
      WithoutEndpoints(list[1..], e, list[0].endpoint);
      var r := Without(list, e);
      if list[0].endpoint != e {
        assert r[0] == list[0] && r[1..] == Without(list[1..], e);
      } else {
        assert r == Without(list[1..], e);
      }
    }
  }

  /** Adding a subscription whose endpoint is new keeps endpoints unique. */
  lemma {:induction false} AppendKeepsUnique(list: seq<Subscription>, sub: Subscription)
    requires UniqueEndpoints(list) && !HasEndpoint(list, sub.endpoint)
    ensures UniqueEndpoints(list + [sub])
    decreases |list|
  {
    if list == [] {
      assert [sub][1..] == [];
    } else {
      var r := list + [sub];
      assert r[0] == list[0] && r[1..] == list[1..] + [sub];
      AppendKeepsUnique(list[1..], sub);
      HasEndpointAppend(list[1..], [sub], list[0].endpoint);
      assert !HasEndpoint([sub], list[0].endpoint) by {
        assert [sub][1..] == [];
      }
    }
  }

  /** Subscribing a new endpoint and then unsubscribing it restores the list. */
  lemma SubscribeThenUnsubscribe(list: seq<Subscription>, sub: Subscription)
    requires !HasEndpoint(list, sub.endpoint)
    ensures Without(list + [sub], sub.endpoint) == list
  {
    WithoutAppend(list, [sub], sub.endpoint);
    WithoutAbsent(list, sub.endpoint);
    assert Without([sub], sub.endpoint) == [];
  }

  /** Deleting an endpoint that first occurs at `x`. */
  lemma {:induction false} DeleteFirstAt(a: seq<Subscription>, x: Subscription, b: seq<Subscription>)
    requires !HasEndpoint(a, x.endpoint)
    ensures DeleteFirst(a + [x] + b, x.endpoint) == a + b
    decreases |a|
  {
    var l := a + [x] + b;
    if a == [] {
      assert l == [x] + b;
    } else {
      assert l[0] == a[0] && l[1..] == a[1..] + [x] + b;
      DeleteFirstAt(a[1..], x, b);
      assert a + b == [a[0]] + (a[1..] + b);
    }
  }

  /** In a list with unique endpoints, no earlier subscription shares the
      endpoint of the one at `i`. */
  lemma {:induction false} UniqueBefore(list: seq<Subscription>, i: nat)
    requires UniqueEndpoints(list) && i < |list|
    ensures !HasEndpoint(list[..i], list[i].endpoint)
    decreases i
  {
    if i > 0 {
      UniqueBefore(list[1..], i - 1);
      assert list[..i][1..] == list[1..][..i - 1] && list[1..][i - 1] == list[i];
      assert list[0].endpoint != list[i].endpoint by {
        UniqueAt(list, i);
      }
    }
  }

  lemma {:induction false} UniqueAt(list: seq<Subscription>, i: nat)
    requires UniqueEndpoints(list) && 0 < i < |list|
    ensures list[0].endpoint != list[i].endpoint
  {
    HasAt(list[1..], i - 1);
  }

  lemma {:induction false} HasAt(list: seq<Subscription>, i: nat)
    requires i < |list|
    ensures HasEndpoint(list, list[i].endpoint)
    decreases i
  {
    if i > 0 {
      HasAt(list[1..], i - 1);
    }
  }

  // ---------------------------------------------------------------------
  // The collection

  /** How `saveSubscriptions` can fail: `deleteMany` throws (nothing
      changed), `insertMany` throws after the collection was cleared and the
      first `written` documents of the list were stored (the insert is
      ordered, so it stops at the first failing document), or the read that
      checks the stored count throws after the list was stored. */
  datatype SaveFault = SaveOk | ClearFails | InsertFails(written: nat) | VerifyFails

  /** The collection after `saveSubscriptions(list)` ends with `fault`,
      starting from `before`. */
  function Stored(before: seq<Subscription>, list: seq<Subscription>, fault: SaveFault): (r: seq<Subscription>)
    ensures fault == ClearFails ==> r == before
    ensures fault == SaveOk || fault == VerifyFails ==> r == list
    ensures fault.InsertFails? ==> r <= list && |r| == (if fault.written < |list| then fault.written else |list|)
  {
    match fault
    case ClearFails => before
    case InsertFails(k) => if k < |list| then list[..k] else list
    case _ => list
  }

  /** A stored prefix has no endpoint the whole list lacks. */
  lemma {:induction false} PrefixEndpoints(list: seq<Subscription>, k: nat, e: string)
    requires k <= |list|
    ensures HasEndpoint(list[..k], e) ==> HasEndpoint(list, e)
  {
    assert list == list[..k] + list[k..];
    HasEndpointAppend(list[..k], list[k..], e);
  }

  /** A stored prefix keeps endpoints unique. */
  lemma {:induction false} PrefixKeepsUnique(list: seq<Subscription>, k: nat)
    requires k <= |list| && UniqueEndpoints(list)
    ensures UniqueEndpoints(list[..k])
    decreases k
  {
    if k > 0 {
      var p := list[..k];
      assert p[0] == list[0] && p[1..] == list[1..][..k - 1];
      PrefixKeepsUnique(list[1..], k - 1);
      PrefixEndpoints(list[1..], k - 1, list[0].endpoint);
    }
  }

  /** Whatever a save leaves behind is a valid collection when both the
      old collection and the list are. */
  lemma StoredKeepsValid(before: seq<Subscription>, list: seq<Subscription>, fault: SaveFault, e: string)
    requires UniqueEndpoints(before) && UniqueEndpoints(list)
    ensures UniqueEndpoints(Stored(before, list, fault))
    ensures fault != ClearFails && HasEndpoint(Stored(before, list, fault), e) ==> HasEndpoint(list, e)
  {
    if fault.InsertFails? && fault.written < |list| {
      PrefixKeepsUnique(list, fault.written);
      PrefixEndpoints(list, fault.written, e);
    }
  }

  /** The responses of the subscribe route. */
  datatype SubscribeResponse =
    | Subscribed(count: nat, verified: nat)
    | AlreadySubscribed(count: nat)
    | InvalidSubscription
    | SaveFailed
    | Unsubscribed
    | UnsubscribeFailed

  class SubscriptionStore {
    var subs: seq<Subscription>

    /** The collection as the routes keep it: every endpoint is non-empty
        and occurs once. */
    ghost predicate Valid()
      reads this
    {
      UniqueEndpoints(subs) && !HasEndpoint(subs, "")
    }

    constructor ()
      ensures subs == [] && Valid()
    {
      subs := [];
    }

    /** `saveSubscriptions(list)`: clear the collection, insert the list,
        then compare the stored count with the list's length. Run on its
        own, the comparison always succeeds. */
    method Save(list: seq<Subscription>, fault: SaveFault) returns (ok: bool)
      modifies this
      ensures ok <==> fault == SaveOk || (fault.InsertFails? && list == [])
      ensures subs == Stored(old(subs), list, fault)
    {
      if fault == ClearFails {
        return false;
      }
      subs := [];
      if |list| > 0 {
        if fault.InsertFails? {
          subs := if fault.written < |list| then list[..fault.written] else list;
          return false;
        }
        subs := list;
      }
      if fault == VerifyFails {
        return false;
      }
      var verified := |subs|;
      ok := verified == |list|;
    }

    /** `deleteOne({ endpoint })`. */
    method DeleteOne(endpoint: string)
      modifies this
      ensures subs == DeleteFirst(old(subs), endpoint)
    {
      subs := DeleteFirst(subs, endpoint);
    }

    /** POST: add the subscription unless its endpoint is already stored. A
        failed read is taken as an empty collection, so saving then replaces
        the whole collection with the new subscription alone. A failure of
        the re-read after a successful save is still reported as a failed
        save. */
    method Subscribe(body: Option<Subscription>, readOk: bool, fault: SaveFault, recheckOk: bool)
      returns (resp: SubscribeResponse)
      requires Valid()
      modifies this
      ensures Valid()
      ensures body.None? || body.value.endpoint == "" ==>
                resp == InvalidSubscription && subs == old(subs)
      ensures body.Some? && body.value.endpoint != "" && readOk
              && HasEndpoint(old(subs), body.value.endpoint) ==>
                resp == AlreadySubscribed(|old(subs)|) && subs == old(subs)
      ensures body.Some? && body.value.endpoint != ""
              && !(readOk && HasEndpoint(old(subs), body.value.endpoint)) ==>
                var list := (if readOk then old(subs) else []) + [body.value];
                subs == Stored(old(subs), list, fault)
                && resp == (if fault == SaveOk && recheckOk then Subscribed(|list|, |list|) else SaveFailed)
      ensures resp.Subscribed? ==> resp.count == resp.verified && body.Some? && body.value in subs
    {
      if body.None? || body.value.endpoint == "" {
        return InvalidSubscription;
      }
      var sub := body.value;
      var list: seq<Subscription> := if readOk then subs else [];
      if !HasEndpoint(list, sub.endpoint) {
        list := list + [sub];
        AppendKeepsUnique(if readOk then subs else [], sub);
        HasEndpointAppend(if readOk then subs else [], [sub], "");
        StoredKeepsValid(subs, list, fault, "");
        var saved := Save(list, fault);
        if !saved {
          return SaveFailed;
        }
        if !recheckOk {
          return SaveFailed;
        }
        resp := Subscribed(|list|, |subs|);
      } else {
        resp := AlreadySubscribed(|list|);
      }
    }

    /** DELETE: drop every subscription with the endpoint and save the rest. */
    method Unsubscribe(endpoint: string, readOk: bool, fault: SaveFault)
      returns (resp: SubscribeResponse)
      requires Valid()
      modifies this
      ensures Valid()
      ensures !readOk ==> resp == UnsubscribeFailed && subs == old(subs)
      ensures readOk ==>
                var list := Without(old(subs), endpoint);
                subs == Stored(old(subs), list, fault)
                && resp == (if fault == SaveOk || (fault.InsertFails? && list == []) then Unsubscribed
                            else UnsubscribeFailed)
      ensures !HasEndpoint(subs, endpoint) || subs == old(subs)
    {
      if !readOk {
        return UnsubscribeFailed;
      }
      var list := Without(subs, endpoint);
      WithoutKeepsUnique(subs, endpoint);
      WithoutEndpoints(subs, endpoint, "");
      WithoutEndpoints(subs, endpoint, endpoint);
      StoredKeepsValid(subs, list, fault, "");
      StoredKeepsValid(subs, list, fault, endpoint);
      var saved := Save(list, fault);
      resp := if saved then Unsubscribed else UnsubscribeFailed;
    }
  }
}
