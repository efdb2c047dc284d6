// The require_entitlement view decorator (app/security/entitlements.py): a
// chain of early 403 aborts over the user's org id and the org's
// Subscription row, ending in a call of the wrapped view.
module EntitlementGuard {
  import opened Wrappers

  /** The Subscription row; the cancellation fields are carried but the guard
      never reads them. entitlements_json is None when the stored JSON is null. */
  datatype Subscription = Subscription(
    status: string,
    entitlements: Option<seq<string>>,
    cancelAtPeriodEnd: bool,
    cancelAt: Option<int>)

  /** Statuses that grant access. */
  const ActiveStatuses: set<string> := {"active", "trialing"}

  /** A subscription exists for the org and its status grants access. */
  predicate HasActiveSubscription(subs: map<int, Subscription>, orgId: int)
  {
    orgId in subs && subs[orgId].status in ActiveStatuses
  }

  /** Python truthiness of an org id read off the user (None and 0 are falsy). */
  predicate OrgIdPresent(orgId: Option<int>)
  {
    orgId.Some? && orgId.value != 0
  }

  datatype Outcome<T> = Abort(code: int, description: string) | Proceed(result: T)

  /** The `entitlements_json or []` snapshot. */
  function Snapshot(s: Subscription): seq<string>
  {
    if s.entitlements.Some? then s.entitlements.value else []
  }

  /** wrapper(*args): the feature guard around a view whose result is `view`.
      Subscriptions are unique per org, so the lookup is a map. */
  function RequireEntitlement<T>(feature: string, userOrgId: Option<int>, subs: map<int, Subscription>, view: T): (r: Outcome<T>)
    ensures r.Proceed? <==>
      OrgIdPresent(userOrgId) && HasActiveSubscription(subs, userOrgId.value)
      && feature in Snapshot(subs[userOrgId.value])
    ensures r.Proceed? ==> r.result == view
    ensures r.Abort? ==> r.code == 403
  {
    if !OrgIdPresent(userOrgId) then Abort(403, "Organization required")
    else
      var orgId := userOrgId.value;
      if !HasActiveSubscription(subs, orgId) then Abort(403, "Subscription required")
      else if feature !in Snapshot(subs[orgId]) then Abort(403, "Feature not included in current plan")
      else Proceed(view)
  }

  /** The checks run in the order org, subscription, feature: the description
      of a refusal names the first check that failed. */
  lemma GuardOrder<T>(feature: string, userOrgId: Option<int>, subs: map<int, Subscription>, view: T)
    ensures !OrgIdPresent(userOrgId) ==>
      RequireEntitlement(feature, userOrgId, subs, view) == Abort(403, "Organization required")
    ensures OrgIdPresent(userOrgId) && !HasActiveSubscription(subs, userOrgId.value) ==>
      RequireEntitlement(feature, userOrgId, subs, view) == Abort(403, "Subscription required")
    ensures (OrgIdPresent(userOrgId) && HasActiveSubscription(subs, userOrgId.value)
             && feature !in Snapshot(subs[userOrgId.value])) ==>
      RequireEntitlement(feature, userOrgId, subs, view) == Abort(403, "Feature not included in current plan")
  {
  }

  /** Without an org id the subscription table is never consulted: any two
      tables give the same refusal. */
  lemma NoOrgNoLookup<T>(feature: string, userOrgId: Option<int>, s1: map<int, Subscription>, s2: map<int, Subscription>, view: T)
    requires !OrgIdPresent(userOrgId)
    ensures RequireEntitlement(feature, userOrgId, s1, view) == RequireEntitlement(feature, userOrgId, s2, view)
  {
  }

  /** An active subscription that holds other keys but not the requested one
      is refused; a null snapshot grants nothing. */
  lemma MissingKeyRefused<T>(feature: string, orgId: int, subs: map<int, Subscription>, view: T)
    requires orgId != 0 && HasActiveSubscription(subs, orgId)
    requires subs[orgId].entitlements.None? || feature !in subs[orgId].entitlements.value
    ensures RequireEntitlement(feature, Some(orgId), subs, view).Abort?
  {
  }

  /** Only status and entitlements decide: changing the cancellation fields
      never changes the outcome. */
  lemma CancellationIgnored<T>(feature: string, orgId: int, subs: map<int, Subscription>, cancelAtPeriodEnd: bool, cancelAt: Option<int>, view: T)
    requires orgId in subs
    ensures var s := subs[orgId];
      var subs' := subs[orgId := Subscription(s.status, s.entitlements, cancelAtPeriodEnd, cancelAt)];
      RequireEntitlement(feature, Some(orgId), subs', view) == RequireEntitlement(feature, Some(orgId), subs, view)
  {
  }
}
