// Price -> entitlement tier resolution (app/billing/entitlements.py).
// The configured price ids are read with cfg.get and may be unset, so they
// are Option values and an unset price id (None) takes part in the
// membership tests exactly as Python's `None in {...}` does.
module Entitlements {
  import opened Wrappers

  /** The Pro feature keys, in their canonical order. */
  const Pro: seq<string> := [
    "exports.pdf", "exports.csv", "assemblies.core",
    "libraries.manage", "customers.crud", "billing.portal"
  ]

  /** Elite is Pro followed by two more keys. */
  const Elite: seq<string> := Pro + ["assemblies.advanced", "priority.support"]

  /** The four configured Stripe price ids (STRIPE_PRICE_PRO_MONTHLY, ...). */
  datatype PriceConfig = PriceConfig(
    proMonthly: Option<string>,
    proAnnual: Option<string>,
    eliteMonthly: Option<string>,
    eliteAnnual: Option<string>)

  function ProPrices(cfg: PriceConfig): set<Option<string>>
  {
    {cfg.proMonthly, cfg.proAnnual}
  }

  function ElitePrices(cfg: PriceConfig): set<Option<string>>
  {
    {cfg.eliteMonthly, cfg.eliteAnnual}
  }

  /** resolve_entitlements(product_id=..., price_id=...): Elite is checked
      first, then Pro; anything else resolves to no features. */
  function ResolveEntitlements(cfg: PriceConfig, productId: Option<string>, priceId: Option<string>): (r: seq<string>)
    ensures r == Elite || r == Pro || r == []
  {
    if priceId in ElitePrices(cfg) then Elite
    else if priceId in ProPrices(cfg) then Pro
    else []
  }

  /** Every Pro feature is an Elite feature, and Elite adds exactly the two
      advanced keys. */
  lemma ProWithinElite()
    ensures forall f :: f in Pro ==> f in Elite
    ensures forall f :: f in Elite && f !in Pro <==> f == "assemblies.advanced" || f == "priority.support"
    ensures Elite[..|Pro|] == Pro
  {
  }

  /** Which tier a price resolves to, in terms of the configured sets: Elite
      wins when a price is configured in both tiers, and an unknown price
      resolves to the empty list (fail closed). */
  lemma ResolveByTier(cfg: PriceConfig, productId: Option<string>, priceId: Option<string>)
    ensures ResolveEntitlements(cfg, productId, priceId) == Elite <==> priceId in ElitePrices(cfg)
    ensures ResolveEntitlements(cfg, productId, priceId) == Pro <==> priceId !in ElitePrices(cfg) && priceId in ProPrices(cfg)
    ensures ResolveEntitlements(cfg, productId, priceId) == [] <==> priceId !in ElitePrices(cfg) && priceId !in ProPrices(cfg)
  {
    assert "exports.pdf" in Pro && "assemblies.advanced" !in Pro;
    assert Elite != Pro;
  }

  /** A Pro-only price grants the exports but not the advanced assemblies. */
  lemma ProPriceFeatures(cfg: PriceConfig, productId: Option<string>, priceId: Option<string>)
    requires priceId !in ElitePrices(cfg) && priceId in ProPrices(cfg)
    ensures var r := ResolveEntitlements(cfg, productId, priceId);
      "exports.pdf" in r && "exports.csv" in r && "assemblies.advanced" !in r
  {
  }

  /** The product id plays no part: equal price ids give equal lists. */
  lemma ProductIgnored(cfg: PriceConfig, p1: Option<string>, p2: Option<string>, priceId: Option<string>)
    ensures ResolveEntitlements(cfg, p1, priceId) == ResolveEntitlements(cfg, p2, priceId)
  {
  }

  /** An event without a price id resolves to a tier one of whose price ids is
      unset, because both are None. */
  lemma UnsetPriceMatchesUnsetConfig(cfg: PriceConfig, productId: Option<string>)
    requires cfg.eliteMonthly.None? || cfg.eliteAnnual.None?
    ensures ResolveEntitlements(cfg, productId, None) == Elite
  {
  }

  /** With every price id configured, a missing price id resolves to nothing. */
  lemma UnsetPriceWithFullConfig(cfg: PriceConfig, productId: Option<string>)
    requires cfg.proMonthly.Some? && cfg.proAnnual.Some? && cfg.eliteMonthly.Some? && cfg.eliteAnnual.Some?
    ensures ResolveEntitlements(cfg, productId, None) == []
  {
  }
}
