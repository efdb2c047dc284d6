// The billing blueprint's admission rules (app/blueprints/billing/routes.py):
// the billing page's is_active flag, and the guard chains of checkout and
// portal, which end in a 303 redirect to the URL the payment gateway returns.
// The gateway's answer is a parameter: the session URL it would hand back.
module BillingRoutes {
  import opened Wrappers
  import opened Text
  import EntitlementGuard

  type Subscriptions = map<int, EntitlementGuard.Subscription>

  datatype Reply = Abort(code: int) | Redirect(url: string, code: int)

  /** Python truthiness of `payload.get("url")`. */
  predicate UrlPresent(url: Option<string>)
  {
    url.Some? && url.value != ""
  }

  /** What the billing page reports. */
  datatype BillingPage = BillingPage(isActive: bool, hasCustomer: bool)

  /** index(): 403 without an org id; otherwise the page's flags. */
  function Index(userOrgId: Option<int>, subs: Subscriptions, customers: set<int>): (r: Result<BillingPage, int>)
    ensures r.Err? <==> !EntitlementGuard.OrgIdPresent(userOrgId)
    ensures r.Err? ==> r.error == 403
    ensures r.Ok? ==> (r.value.isActive <==> EntitlementGuard.HasActiveSubscription(subs, userOrgId.value))
    ensures r.Ok? ==> (r.value.hasCustomer <==> userOrgId.value in customers)
  {
    if !EntitlementGuard.OrgIdPresent(userOrgId) then Err(403)
    else
      var orgId := userOrgId.value;
      Ok(BillingPage(EntitlementGuard.HasActiveSubscription(subs, orgId), orgId in customers))
  }

  /** The module's own create_checkout_session helper: 400 when the org id does
      not name an Org, otherwise the gateway's session URL. */
  function CreateCheckoutSession(priceId: string, orgId: int, orgs: set<int>, gatewayUrl: Option<string>): (r: Result<Option<string>, int>)
    ensures r.Err? <==> orgId !in orgs
    ensures r.Err? ==> r.error == 400
    ensures r.Ok? ==> r.value == gatewayUrl
  {
    if orgId !in orgs then Err(400) else Ok(gatewayUrl)
  }

  /** checkout(): the guard chain in source order. `priceForm` is the form
      field price_id, None when absent. */
  function Checkout(userOrgId: Option<int>, subs: Subscriptions, orgs: set<int>, priceForm: Option<string>, gatewayUrl: Option<string>): (r: Reply)
    ensures !EntitlementGuard.OrgIdPresent(userOrgId) ==> r == Abort(403)
    ensures r.Abort? ==> r.code in {400, 403, 409, 502}
    ensures r.Redirect? ==> r.code == 303 && Some(r.url) == gatewayUrl && userOrgId.value in orgs
  {
    if !EntitlementGuard.OrgIdPresent(userOrgId) then Abort(403)
    else
      var orgId := userOrgId.value;
      if EntitlementGuard.HasActiveSubscription(subs, orgId) then Abort(409)
      else
        var priceId := Trim(if priceForm.Some? then priceForm.value else "");
        if priceId == "" then Abort(400)
        else
          match CreateCheckoutSession(priceId, orgId, orgs, gatewayUrl)
          case Err(code) => Abort(code)
          case Ok(url) => if !UrlPresent(url) then Abort(502) else Redirect(url.value, 303)
  }

  /** The outcome of checkout, condition by condition: each refusal happens
      exactly when every earlier guard passed and its own guard fails, and a
      redirect always goes to the gateway's URL with status 303. */
  lemma CheckoutOutcomes(userOrgId: Option<int>, subs: Subscriptions, orgs: set<int>, priceForm: Option<string>, gatewayUrl: Option<string>)
    ensures var r := Checkout(userOrgId, subs, orgs, priceForm, gatewayUrl);
      var org := EntitlementGuard.OrgIdPresent(userOrgId);
      var active := org && EntitlementGuard.HasActiveSubscription(subs, userOrgId.value);
      var blank := priceForm.None? || NoSpaceFree(priceForm.value);
      && (r == Abort(403) <==> !org)
      && (r == Abort(409) <==> active)
      && (r == Abort(400) <==> org && !active && (blank || userOrgId.value !in orgs))
      && (r == Abort(502) <==> org && !active && !blank && userOrgId.value in orgs && !UrlPresent(gatewayUrl))
      && (r.Redirect? <==> org && !active && !blank && userOrgId.value in orgs && UrlPresent(gatewayUrl))
      && (r.Redirect? ==> r.code == 303 && Some(r.url) == gatewayUrl)
  {
    if priceForm.Some? {
      TrimEmpty(priceForm.value);
    }
  }

  /** While the org's subscription is active or trialing, every checkout is
      refused with 409, whatever price is asked for. */
  lemma ActiveBlocksCheckout(orgId: int, subs: Subscriptions, orgs: set<int>, p1: Option<string>, p2: Option<string>, u1: Option<string>, u2: Option<string>)
    requires orgId != 0 && EntitlementGuard.HasActiveSubscription(subs, orgId)
    ensures Checkout(Some(orgId), subs, orgs, p1, u1) == Abort(409)
    ensures Checkout(Some(orgId), subs, orgs, p1, u1) == Checkout(Some(orgId), subs, orgs, p2, u2)
  {
  }

  /** portal(): no org -> 403, no billing customer -> 404, no URL -> 502,
      else 303 to the URL. */
  function Portal(userOrgId: Option<int>, customers: set<int>, gatewayUrl: Option<string>): (r: Reply)
    ensures r == Abort(403) <==> !EntitlementGuard.OrgIdPresent(userOrgId)
    ensures r == Abort(404) <==> EntitlementGuard.OrgIdPresent(userOrgId) && userOrgId.value !in customers
    ensures r == Abort(502) <==> EntitlementGuard.OrgIdPresent(userOrgId) && userOrgId.value in customers && !UrlPresent(gatewayUrl)
    ensures r.Redirect? <==> EntitlementGuard.OrgIdPresent(userOrgId) && userOrgId.value in customers && UrlPresent(gatewayUrl)
    ensures r.Redirect? ==> r.code == 303 && Some(r.url) == gatewayUrl
  {
    if !EntitlementGuard.OrgIdPresent(userOrgId) then Abort(403)
    else if userOrgId.value !in customers then Abort(404)
    else if !UrlPresent(gatewayUrl) then Abort(502)
    else Redirect(gatewayUrl.value, 303)
  }
}
