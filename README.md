# Electrical estimator: verified model of the core

The system is a multi-tenant web application for electrical contractors. A
Flask server and a set of browser scripts build estimates. The server keeps
orgs, members and subscriptions, catalogs of materials, direct job expenses
(DJE) and assemblies, and saved estimates. The browser scripts run the
estimator grid, the DJE grid, the labor adjustments and the summary page.
They keep their state in `localStorage`, under one namespace per estimate.

This project models the parts of that system that decide things, in Dafny,
and proves what they promise. Each module models one source file:

- **Billing and access.**
  - `Entitlements`: price to entitlement tier.
  - `EntitlementGuard`: the feature guard.
  - `BillingRoutes`: checkout and portal admission.
  - `Policy`: org-membership guards.
  - `Roles`: the three member roles.
  - `Cli`: bootstrap, user creation, promote and demote. Demote keeps at least one owner.
- **Email webhook.** `EmailWebhook` is the HMAC gate, the status mapping and one log row per request.
- **Validators.**
  - `Validators`: the server side.
  - `ClientValidation`: the browser twins.
  - `ExportValidator`: the export-payload check.
  - `CustomersIndex`: the customer forms.
- **Estimates and cost arithmetic.**
  - `EstimatesRoutes`: create and update coercion, the summary CSV and the quantised index totals.
  - `Calculations`: line, totals, adders, overhead, margin and markup.
  - `Assemblies`: number helpers, roll-up and catalog operations.
  - `ApiMaterials`: per-each prices.
  - `AdminAssemblies`: the admin assembly screens.
- **Seed and import pipelines.**
  - `Persistence`: starter-pack seeding.
  - `ImportMaterials` and `ImportDje`: the bulk importers.
- **Browser state.**
  - `Keys`: namespaced keys and hard reset.
  - `Summary`: the summary page.
  - `Estimator`: the estimator grid.
  - `Dje`: the DJE grid.
  - `Adjustments`: the labor adjustments page.
  - `MaterialsIndex`, `DjeIndex` and `AdminSettings`: the catalog and settings pages.
- **Shared modules.**
  - `Wrappers`: Option and Result.
  - `Text`: whitespace, case and digits.
  - `Json`: decoded values with Python truthiness.
  - `NumParse`: Python `int()`/`Decimal()`, JavaScript `Number`/`parseInt`/`parseFloat`, and half-up quantisation.
  - `Storage`: the browser's `localStorage` as a class.

The models follow the code's form:

- Pure decision code becomes functions over datatypes.
- Objects whose state changes in place become classes. Examples are the storage, the grids, the catalog, the CLI directory, the importers' tables and the select boxes.
- The methods of those classes are proved against specification functions.
- Numbers are `real` or `int`. Decimal arithmetic is exact.

## Model

| member | source | states |
|---|---|---|
| Entitlements.ResolveEntitlements | app/billing/entitlements.py:20-40 | a price resolves to the Elite list, the Pro list or the empty list, nothing else |
| Entitlements.ProWithinElite | app/billing/entitlements.py:5-18 | every Pro key is an Elite key, Elite starts with Pro and adds exactly "assemblies.advanced" and "priority.support" |
| Entitlements.ResolveByTier | app/billing/entitlements.py:27-40 | Elite exactly when the price is a configured Elite price; Pro exactly when it is a Pro price and not an Elite one; empty otherwise (fail closed) |
| Entitlements.ProPriceFeatures | app/billing/entitlements.py:38-39 | a Pro-only price grants both exports but not the advanced assemblies |
| Entitlements.ProductIgnored | app/billing/entitlements.py:20-40 | the product id never changes the resolved list |
| Entitlements.UnsetPriceMatchesUnsetConfig | app/billing/entitlements.py:31-37 | a missing price id matches an unset Elite price id and resolves to Elite |
| Entitlements.UnsetPriceWithFullConfig | app/billing/entitlements.py:27-40 | with all four price ids configured, a missing price id resolves to no features |
| EntitlementGuard.RequireEntitlement | app/security/entitlements.py:9-30 | the view runs exactly when the org id is truthy, the org's subscription is active or trialing and the feature is in its snapshot; every refusal is 403 |
| EntitlementGuard.GuardOrder | app/security/entitlements.py:19-27 | the refusal reason follows the order org, subscription, feature |
| EntitlementGuard.NoOrgNoLookup | app/security/entitlements.py:19-21 | without an org id the subscription table does not affect the outcome |
| EntitlementGuard.MissingKeyRefused | app/security/entitlements.py:25-27 | an active subscription whose snapshot lacks the key is refused |
| EntitlementGuard.CancellationIgnored | app/security/entitlements.py:23-27 | the cancellation fields of the subscription never change the outcome |
| Policy.CurrentOrgId | app/services/policy.py:7-11 | the session org id when truthy; otherwise the user's org id for a logged-in user, the session value for an anonymous one |
| Policy.AbortSmart | app/services/policy.py:45-51 | a JSON error exactly when Accept names application/json (any case) or the path ends in .json, carrying the code and its name; otherwise an abort with the code |
| Policy.RequireMember | app/services/policy.py:13-25 | the view runs exactly when the user is logged in, the current org id is truthy and a membership exists |
| Policy.RoleRequiredRefinesMember | app/services/policy.py:27-43 | role_required refuses as require_member does and, where that admits, admits exactly the listed roles (403 otherwise) |
| Policy.RoleRequiredCodes | app/services/policy.py:30-41 | the denials in order: 401 anonymous, 401 no org, 404 no membership, 403 wrong role |
| Policy.AnonymousOnly401 | app/services/policy.py:16-17 | an anonymous caller always gets 401 from both guards |
| Policy.PolicyScenarios | tests/test_policy.py:22-65 | JSON requests: anonymous 401 "unauthorized", no membership 404 "not_found", member on an admin route 403 "forbidden", admin gets the view |
| BillingRoutes.Index | app/blueprints/billing/routes.py:25-42 | 403 exactly without an org id; otherwise is_active iff the subscription is active or trialing and has_customer iff a billing customer exists |
| BillingRoutes.CreateCheckoutSession | app/blueprints/billing/routes.py:11-20 | 400 exactly when the org does not exist; otherwise the gateway's URL |
| BillingRoutes.Checkout | app/blueprints/billing/routes.py:48-67 | a user without an org is refused with 403; every refusal is 400, 403, 409 or 502; a redirect is 303 to the gateway's URL for an org that exists |
| BillingRoutes.CheckoutOutcomes | app/blueprints/billing/routes.py:48-67 | each of 403, 409, 400, 502 happens exactly when the earlier guards pass and its own fails; a redirect is 303 to the gateway URL |
| BillingRoutes.ActiveBlocksCheckout | app/blueprints/billing/routes.py:53-56 | an active or trialing subscription makes every checkout 409 whatever the price and gateway |
| BillingRoutes.Portal | app/blueprints/billing/routes.py:73-86 | 403 without org, 404 without billing customer, 502 without URL, otherwise 303 to the URL, each exactly |
| Validators.CleanStr | app/utils/validators.py:10-19 | None stays None; a cleaned value is non-empty and at most max_len long |
| Validators.CleanStrMeaning | app/utils/validators.py:14-19 | the result is None exactly when the text is all whitespace; otherwise it is a prefix of the collapsed, trimmed text, all of it when it fits |
| Validators.CleanStrShape | app/utils/validators.py:16-19 | a cleaned value has only single spaces, does not start with one, and cleaning it again is a no-op unless the cut left a trailing space |
| Validators.CleanStrOfTrimmed | app/utils/validators.py:53-54 | stripping before clean_str changes nothing |
| Validators.EmailShapeMeaning | app/utils/validators.py:4 | an address matching the pattern has no whitespace and exactly one "@", with characters on both sides |
| Validators.TrailingNewlineAccepted | app/utils/validators.py:21-24 | because `$` also matches before a final newline, "a@b.co\n" is accepted though it does not have the shape |
| Validators.PhoneDigits | app/utils/validators.py:33-35 | the extracted digits are all digits |
| Validators.FormatPhone | app/utils/validators.py:38 | the formatted number is 14 characters long |
| Validators.NormalizePhone | app/utils/validators.py:26-38 | a result exactly when the value is non-empty and has 10 digits (11 with a leading 1), and then it is those digits formatted |
| Validators.FormatPhoneDigits | app/utils/validators.py:33-38 | reading the digits back out of "(ddd) ddd-dddd" gives the ten digits |
| Validators.NormalizePhoneIdempotent | app/utils/validators.py:26-38 | normalising a normalised number returns it unchanged |
| Validators.CityRegexMeaning | app/utils/validators.py:5 | the city pattern accepts exactly a letter followed by at most 99 of [A-Za-z .'-], the 100th character being a letter or dot |
| Validators.IsValidState | app/utils/validators.py:56-59 | a non-empty value is valid exactly when its stripped form is two letters |
| Validators.IsValidZip | app/utils/validators.py:61-64 | a non-empty value is valid exactly when its stripped form is five digits with an optional "-dddd" |
| Validators.EmptyAccepted | app/utils/validators.py:21-64 | every validator accepts None and the empty string |
| Validators.DeriveCityFromAddress | app/utils/validators.py:45-54 | None without a comma; otherwise the text after the first comma, stripped and cleaned to at most 100 characters, never starting with a space |
| ClientValidation.CollapseSpacesMeaning | app/static/js/validation.js:2-9 | the result is the whitespace-collapsed, trimmed text, cut to maxLen only when that is a positive number smaller than its length |
| ClientValidation.CollapseSpacesMatchesServer | app/static/js/validation.js:2-9 | with a positive limit the browser cleans a value exactly as the server's clean_str, "" standing for None |
| ClientValidation.ValidateEmailStricter | app/static/js/validation.js:11-14 | every address the browser accepts the server accepts; "a@b.co\n" is accepted only by the server |
| ClientValidation.NormalizePhoneMatchesServer | app/static/js/validation.js:16-22 | the browser's phone normaliser equals the server's, "" exactly where the server gives None |
| ClientValidation.NormalizePhoneShape | app/static/js/validation.js:16-22 | the result is "" or 14 characters, and a non-empty result normalises to itself |
| ExportValidator.ValidateFastExportPayload | app/blueprints/estimates/validators.py:3-22 | at most one message; a payload that is not an object gets exactly "payload: must be a JSON object" |
| ExportValidator.ValidateMeaning | app/blueprints/estimates/validators.py:13-22 | accepted exactly when an object sits at cells, totals or controls, at the top level or under summary_export; an object otherwise gets the single "required object" message |
| ExportValidator.ValidateExamples | app/blueprints/estimates/validators.py:10-22 | an empty object under "cells" or under summary_export's "totals" is accepted; an array under "cells" is refused, and a non-object gets the object message |
| EmailWebhook.ValidSignatureMeaning | app/blueprints/webhooks/routes.py:11-19 | an unset or empty secret and a non-ASCII signature are always refused; otherwise the signature is valid exactly when it equals the HMAC digest |
| EmailWebhook.StatusMapping | app/blueprints/webhooks/routes.py:33-42 | the status is one of four; "failed" exactly for an event other than bounce, complaint, delivered; the event name is lower-cased first |
| EmailWebhook.LogEntry | app/blueprints/webhooks/routes.py:32-53 | a row has no user, keeps the whole payload as meta, a trimmed lower-case address, one of the four statuses, and "unknown"/"" for a missing template/subject |
| EmailWebhook.EmailLogTable.EmailEvents | app/blueprints/webhooks/routes.py:21-64 | 401 without a valid signature, 400 for a body that is not JSON; 200 exactly when the payload is readable, and then exactly one row is appended; otherwise the table is unchanged |
| Calculations.CalcLine | app/services/calculations.py:4-22 | the line keeps its description and the cleaned numbers; material = qty * price, labor hours = qty * hours per unit, line total = qty * (price + hours per unit * rate) |
| Calculations.CalcTotals | app/services/calculations.py:24-32 | material is the summed material, labor is the summed hours times the rate, and the grand total is their sum |
| Calculations.Entries | app/services/calculations.py:26-27 | calc_totals reads one entry per line |
| Calculations.GrandTotalIsSumOfLines | app/services/calculations.py:4-32 | totalling lines made by calc_line at one rate gives the sum of their line totals |
| Calculations.GrandTotalStep | app/services/calculations.py:24-32 | appending one line priced at the rate keeps the grand total equal to the sum of line totals |
| Calculations.SumsStep | app/services/calculations.py:26-27 | one more line adds its own material and its own hours to the sums |
| Calculations.CalcLinePricedAt | app/services/calculations.py:10-13 | a line made by calc_line is priced at the rate it was given |
| Calculations.MissingCountsAsZero | app/services/calculations.py:26-27 | lines without material or labor entries total to zero |
| Calculations.Percent | app/services/calculations.py:37-42 | a percentage of a non-negative amount at a non-negative rate is non-negative, and 0% of anything is 0 |
| Calculations.MaterialAdders | app/services/calculations.py:35-47 | each adder is its percentage of the base, taxable is the base plus the four adders, tax is its percentage of taxable, and the total is taxable plus tax |
| Calculations.MaterialAddersClosedForm | app/services/calculations.py:35-47 | taxable = base * (1 + summed adder percentages / 100) and total = taxable * (1 + tax / 100) |
| Calculations.TaxableClosedForm | app/services/calculations.py:36-41 | taxable is the base grown by the summed adder percentages |
| Calculations.TotalClosedForm | app/services/calculations.py:42-43 | the total is taxable grown by the tax percentage |
| Calculations.PercentsAdd | app/services/calculations.py:37-41 | adding four percentages of a base is growing the base by their sum |
| Calculations.PercentGrows | app/services/calculations.py:42-43 | adding a percentage of an amount is growing the amount by that percentage |
| Calculations.MaterialAddersBounds | app/services/calculations.py:35-47 | at all-zero percentages taxable and total are the base; with non-negative inputs base <= taxable <= total |
| Calculations.MaterialAddersAtZero | app/services/calculations.py:35-47 | at all-zero percentages taxable and total equal the base |
| Calculations.MaterialAddersGrow | app/services/calculations.py:35-47 | with non-negative inputs base <= taxable <= total |
| Calculations.TaxableGrows | app/services/calculations.py:36-41 | with non-negative inputs taxable is at least the base |
| Calculations.TotalGrows | app/services/calculations.py:42-43 | with a non-negative tax the total is at least taxable |
| Calculations.OverheadValue | app/services/calculations.py:50-51 | overhead is non-negative for non-negative inputs, the whole prime cost at 100%, and 0 at 0% or on a zero prime cost |
| Calculations.OverheadProps | app/services/calculations.py:50-51 | overhead is additive in the prime cost, 0 at 0%, the whole prime cost at 100%, and non-negative for non-negative inputs |
| Calculations.MarginToMarkup | app/services/calculations.py:54-58 | a margin of 100% or more gives the guard-rail multiplier 2.0; below it the multiplier undoes the margin, k * (1 - m) = 1; a non-negative margin never marks down |
| Calculations.EstimatedSalesPrice | app/services/calculations.py:60-61 | with non-negative cost and margin the price is at least the break-even cost, and at 100% or more it is twice that cost |
| Calculations.SalesPriceKeepsMargin | app/services/calculations.py:54-61 | below 100% margin, price * (1 - margin) is the break-even cost, so the margin is the profit share of the price; at 100% or more the price is twice the cost; a non-negative margin never marks down |
| ApiMaterials.MaterialTypes | app/blueprints/estimator/api_materials.py:8-18 | every listed type is non-empty and came from the query; every non-empty queried type is listed |
| ApiMaterials.UnitDivisor | app/blueprints/estimator/api_materials.py:47-53 | the divisor is always at least 1 |
| ApiMaterials.UnitDivisorAgrees | app/blueprints/estimator/api_materials.py:46-56 | the divisor rule is the assembly service's integer-or-default with default 1; a positive integer size is used as is, null or non-positive gives 1 |
| ApiMaterials.PerEach | app/blueprints/estimator/api_materials.py:46-56 | price and labor per unit times the divisor give back price and labor (None read as 0) |
| ApiMaterials.Shape | app/blueprints/estimator/api_materials.py:59-71 | each item keeps id and description, reads missing price and labor as 0, reports the unit size or 1, and per-unit price and labor times the divisor give back the price and labor |
| ApiMaterials.PerHundred | app/blueprints/estimator/api_materials.py:54-68 | an item priced per 100 reports a hundredth of its price per unit |
| ApiMaterials.OfType | app/blueprints/estimator/api_materials.py:32-44 | exactly the active rows of the given type are selected |
| ApiMaterials.BuildResults | app/blueprints/estimator/api_materials.py:58-71 | one result per row, in row order, each the shaped row |
| ApiMaterials.GetMaterialDescriptions | app/blueprints/estimator/api_materials.py:25-73 | a blank or missing type gives []; otherwise one shaped item per active row of the trimmed type, in order |
| Cli.Demote | app/cli.py:107-115 | refused exactly when the membership is missing or it is the org's last owner; otherwise only that membership becomes member |
| Cli.DemoteKeepsAnOwner | app/cli.py:111-113 | after a successful demote every org that had an owner still has one |
| Cli.DemoteOnlyChangesRole | app/cli.py:115 | a demote keeps the membership keys and changes only the one role |
| Cli.Promote | app/cli.py:89-94 | the membership is inserted or overwritten with the role, every other membership kept |
| Cli.PromoteOwnerGrowsOwners | app/cli.py:85-95 | promoting to owner adds exactly that user to the org's owners |
| Cli.Directory.OrgsNamed | app/cli.py:9 | every id returned names an org with exactly that name |
| Cli.Directory.UserByEmail | app/cli.py:86 | the id of a user with exactly that email, or None when no user has it |
| Cli.Directory.GetOrCreateOrg | app/cli.py:8-15 | no org of that name: a new active org is appended and its id returned; one: its id, nothing changes; several: refused, nothing changes |
| Cli.Directory.BootstrapOwner | app/cli.py:26-42 | an existing email is refused, then an ambiguous org name; otherwise it succeeds exactly when the email does not clash case-insensitively with a user, and fails with an integrity error that changes nothing when it does; on success the org is found or created, the user appended with that org and active, and exactly one owner membership added |
| Cli.Directory.UsersCreate | app/cli.py:53-71 | an existing email is refused, then an unknown org; otherwise it succeeds exactly when the email does not clash case-insensitively, and fails with an integrity error that changes nothing when it does; on success one user is appended in that org and one membership of the chosen role added |
| Cli.Directory.MembersPromote | app/cli.py:85-96 | an unknown email is refused; an unknown org fails the membership insert and changes nothing; otherwise it succeeds and the memberships are the upsert of the role |
| Cli.Directory.MembersDemote | app/cli.py:101-117 | an unknown email is refused; otherwise the outcome and the new memberships are those of the demote rule, a refusal changing nothing |
| Keys.KeysFor | app/static/js/keys.js:9-32 | the namespace is "ee.<eid>." for a non-empty eid and "ee.FAST." otherwise, and all three keys lie under it |
| Keys.SpaceOfKeyInverse | app/static/js/keys.js:13-19 | the namespace name can be read back from any of the three keys |
| Keys.SpaceOfKeyWith | app/static/js/keys.js:17-19 | reading the namespace back from "ee.<name>.<suffix>" gives the name |
| Keys.KeySetsDisjoint | app/static/js/keys.js:13-19 | two pages' key sets are disjoint exactly when their namespaces differ; an estimate id other than "FAST" therefore never shares a key with fast mode, while the id "FAST" does share keys with it |
| Keys.Targets | app/static/js/keys.js:49-58 | the explicit targets include the current keys, the fast-mode keys and the legacy "estimateData" |
| Keys.Prefixes | app/static/js/keys.js:67-68 | the swept prefixes are "ee.FAST." and, with an eid, "ee.<eid>.", and nothing else |
| Keys.Sweep | app/static/js/keys.js:69-75 | no kept entry has a non-empty key under a swept prefix |
| Keys.HardReset | app/static/js/keys.js:45-76 | the storage afterwards is the explicit removals followed by the namespace sweep |
| Keys.RemoveTargets | app/static/js/keys.js:61-63 | the loop removes every target, in order |
| Keys.SweepNamespaces | app/static/js/keys.js:69-75 | the backwards index loop leaves exactly the entries the sweep keeps |
| Keys.SweepKeepsNoKey | app/static/js/keys.js:69-75 | the sweep never brings back a key |
| Keys.LookupSweep | app/static/js/keys.js:69-75 | after the sweep a non-empty key under a prefix reads as missing and every other key reads as before |
| Keys.LookupDropAll | app/static/js/keys.js:61-63 | after removing the targets a target reads as missing and every other key reads as before |
| Keys.HardResetLookup | app/static/js/keys.js:45-76 | after hardReset a key reads as missing exactly when it was a target or lies under a swept prefix; other keys keep their values |
| Keys.HardResetClears | app/static/js/keys.js:38-76 | afterwards no key lies under "ee.FAST." or the current estimate's namespace, and "estimateData" and the current and fast-mode keys are gone |
| Keys.HardResetKeepsOthers | app/static/js/keys.js:45-76 | a key outside the targets and the swept namespaces keeps its value |
| Keys.Window.Install | app/static/js/keys.js:6-36 | loading the script again changes nothing; the first load installs nsKeys, ee.nsKeys and ee.hardReset |
| Estimator.EscapeHtmlChar | app/static/js/estimator.js:488-495 | on one character the five replacements give exactly its entity |
| Estimator.EscapeHtmlOnePass | app/static/js/estimator.js:488-495 | because "&" is replaced first, the five passes equal escaping each character once: no entity is escaped twice |
| Estimator.EntityChars | app/static/js/estimator.js:488-495 | each entity starts with its only "&", holds none of < > " ', and other characters are kept as they are |
| Estimator.EscapeRoundTrip | app/static/js/estimator.js:488-495 | unescaping the output gives back the input, so two different strings never escape alike |
| Estimator.EscapeHtmlSafe | app/static/js/estimator.js:488-495 | the output holds none of < > " ' and every "&" in it starts one of the five entities |
| Estimator.ToIntLoose | app/static/js/estimator.js:520-524 | the result is never negative, 0 when the loose number is not above 0, and otherwise its floor |
| Estimator.DollarIgnored | app/static/js/estimator.js:511-517 | a "$" in front does not change the number read |
| Estimator.ToNumberLooseOfDigits | app/static/js/estimator.js:511-524 | both loose parsers read a digit string as its decimal value |
| Estimator.IntOfWhole | app/static/js/estimator.js:520-524 | a value read as a whole number n >= 0 is read by toIntLoose as n |
| Estimator.BlankIsZero | app/static/js/estimator.js:511-524 | null and the empty cell read as 0 |
| Estimator.LoadGrid | app/static/js/estimator.js:59-67 | a missing or empty item reads as null, and rows are only ever read from a parsed object's "rows" array |
| Estimator.StripLeadingZeros | app/static/js/estimator.js:734 | removing leading zeros while a digit follows keeps the value, keeps the text non-empty, and leaves no superfluous leading zero |
| Estimator.SanitizeQty | app/static/js/estimator.js:732-736 | the sanitized quantity is blank or a canonical digit string |
| Estimator.SanitizeQtyIdempotent | app/static/js/estimator.js:732-736 | sanitizing twice is sanitizing once |
| Estimator.FormatQtyOnBlur | app/static/js/estimator.js:739-743 | the blurred quantity is blank exactly when the input has no digit, and otherwise a digit string that starts with 0 only for the value 0 |
| Estimator.FormatQtyMatchesSanitize | app/static/js/estimator.js:732-743 | the blur formatting gives the same text as live sanitizing, blank exactly when the input has no digit |
| Estimator.ExtendMatchesServer | app/static/js/estimator.js:543-575 | the row's material extension and labor hours are the server's calc_line with hours per unit scaled by the adjustment; quantity 0 gives 0 and one more unit adds the price |
| Estimator.RowMathNonPositiveQty | app/static/js/estimator.js:520-568 | a quantity that does not read as positive contributes nothing |
| Estimator.LoadGridReadsSave | app/static/js/estimator.js:18-67 | the {v: 1, rows} object saveGridToStorage writes reads back as the same rows; a missing or empty item reads as null |
| Estimator.LoadGridRejectsVersion | app/static/js/estimator.js:59-67 | a saved object with a version other than 1 reads as null |
| Estimator.MaxIndex | app/static/js/estimator.js:783-792 | the result is at least -1 and no row index exceeds it |
| Estimator.MaxIndexAppend | app/static/js/estimator.js:783-792 | appending a row raises the maximum exactly when its index is larger |
| Estimator.ResetRows | app/static/js/estimator.js:811-870 | no row numbered 10 or more survives the reset and every survivor is blank |
| Estimator.BaseRows | app/static/js/estimator.js:806-870 | the base grid is n blank rows numbered 0 to n - 1 |
| Estimator.ResetNumberedGrid | app/static/js/estimator.js:806-870 | resetting a grid numbered 0, 1, ... leaves the first ten base rows, or all of them when there are fewer |
| Estimator.Grid.AppendBlankRow | app/static/js/estimator.js:1087-1100 | exactly one blank row with the given index is appended |
| Estimator.Grid.Grow | app/static/js/estimator.js:1079-1081 | the index is recorded as expanded and exactly one blank row numbered one past it is appended |
| Estimator.Grid.AutogrowIfLast | app/static/js/estimator.js:794-803 | a non-negative index equal to the last one and not yet expanded is recorded and one blank row numbered one past it is appended; anything else changes nothing |
| Estimator.Grid.HandleNotesInput | app/static/js/estimator.js:1052-1083 | the same growth rule for a notes cell, only for text that is not blank after trimming |
| Estimator.Grid.ResetEstimate | app/static/js/estimator.js:806-882 | rows 10 and up removed, the rest blanked, the expanded set cleared, and the totals and grid keys of the current namespace removed from storage |
| Estimator.GuardFollowsFromLast | app/static/js/estimator.js:794-803 | in a valid grid the last index is never in the expanded set, so growth happens exactly when the index is the last one |
| Adjustments.PercentOptions | app/static/js/adjustments.js:189-194 | the percent select offers exactly 0, 1, ..., 100 in that order |
| Adjustments.SelectPercent | app/static/js/adjustments.js:99-105 | the restored select value is the saved percent exactly when that is a whole number from 0 to 100, an offered option, and 0 otherwise |
| Adjustments.Entries | app/static/js/adjustments.js:328-340 | the rebuilt list has one entry per row, in row order |
| Adjustments.SumHoursOfEntries | app/static/js/adjustments.js:325-340 | the running total equals the sum of the hours in the rebuilt list |
| Adjustments.TrimZero | app/static/js/adjustments.js:419-436 | the reset keeps only rows below the base count, each with percent 0 and hours 0 |
| Adjustments.TrimZeroKeepsBase | app/static/js/adjustments.js:419-436 | every base row survives the reset, in order, with its label and zeroed percent and hours |
| Adjustments.TrimZeroMeaning | app/static/js/adjustments.js:419-436 | every row the reset keeps is some old row with percent and hours zeroed, and every old base row is kept so |
| Adjustments.PercentHours | app/static/js/adjustments.js:479-488 | 0% gives 0 hours, 100% gives the base, and a percent up to 100 of a non-negative base lies between 0 and the base |
| Adjustments.NumberChars | app/static/js/adjustments.js:87 | the kept text holds only digits and dots, keeps every digit and dot of the cell, adds nothing, and is empty exactly when the cell has none |
| Adjustments.NumberCharsAppend | app/static/js/adjustments.js:87 | the filter distributes over concatenation, so it keeps the digits and dots in their order |
| Adjustments.EstimatedLaborHours | app/static/js/adjustments.js:85-89 | the base hours read from the cell are never negative, are 0 when the cell holds no digit or dot, and are the digits' value when only digits are kept |
| Adjustments.EstimatedOfDigits | app/static/js/adjustments.js:85-89 | a digit string reads as its value |
| Adjustments.EstimatedIgnoresMinus | app/static/js/adjustments.js:85-89 | a leading minus sign is dropped, so "-5" reads as 5 |
| Adjustments.LaborTable.CreateRow | app/static/js/adjustments.js:174-240 | one row is appended whose data-row is the old row count, with the label, percent 0 and hours 0 |
| Adjustments.LaborTable.OnTextInput | app/static/js/adjustments.js:24-42 | the label is set; one blank row is appended exactly when the row is last, the text is not blank and the row did not grow the table before, and that row is remembered |
| Adjustments.LaborTable.SetHours | app/static/js/adjustments.js:217-232 | the row's hours become parseFloat of the text, 0 for NaN, and nothing else changes |
| Adjustments.LaborTable.SetPercent | app/static/js/adjustments.js:479-488 | the chosen percent is stored and the row's hours become that share of the base |
| Adjustments.LaborTable.Collect | app/static/js/adjustments.js:325-340 | the rebuilt list is one entry per row and the total is the sum of the rows' hours |
| Adjustments.LaborTable.EnsureTrailingBlank | app/static/js/adjustments.js:121-127 | afterwards the last row has a blank label; one blank row is appended only when the last label was not blank |
| Adjustments.LaborTable.FinishReset | app/static/js/adjustments.js:446-467 | the trimmed, zeroed rows are kept as they are, or gain exactly one trailing blank row numbered after them; autogrowth is re-armed |
| Adjustments.LaborTable.FillRows | app/static/js/adjustments.js:91-130 | saved rows are restored in order with their labels, restored percents and hours, and a blank row is added when the last label is filled; with nothing saved the default labels with zero percent and hours plus a blank row; rows are numbered 0, 1, ... and the last label is blank |
| Adjustments.LaborTable.TrimAndZero | app/static/js/adjustments.js:419-436 | the rows become the trimmed, zeroed rows of the reset |
| Adjustments.ConsumedOnce | app/static/js/adjustments.js:584-597 | a reset timestamp, once recorded as seen, is not consumed again, and a new timestamp is |
| Adjustments.Page.UpdateFooterTotals | app/static/js/adjustments.js:320-356 | the adjustments list is rebuilt, its hours summed, the base read from the cell, and final = base + adjustments + additional; the additional side is unchanged |
| Adjustments.Page.UpdateAdditionalLaborTotals | app/static/js/adjustments.js:359-393 | the additional list is rebuilt and summed, and final = estimated + adjustments + additional; the adjustments side is unchanged |
| Adjustments.Page.OnAdjTextInput | app/static/js/adjustments.js:24-42 | the typed row's label becomes the text and nothing else in the row changes; a blank row is appended exactly when the row is last, the text is not blank and the row did not grow the table before; the additional table and the estimated cell are untouched, the list matches the rows, and final is the sum of its three parts |
| Adjustments.Page.OnAdjPercentChange | app/static/js/adjustments.js:479-490 | the chosen percent gives the row that share of the estimated labor hours; the adjustments list and total are rebuilt from the table, the adjusted base is the estimate plus that total, the additional table and its totals are unchanged, and final stays the sum of its parts |
| Adjustments.Page.OnAddPercentChange | app/static/js/adjustments.js:492-503 | the chosen percent gives the row that share of the adjusted total; the additional list and total are rebuilt from the table, the adjusted base, the estimate and the adjustments side are unchanged, and final stays the sum of its parts |
| Adjustments.Page.Populate | app/static/js/adjustments.js:91-172 | the adjustments table is filled from the saved adjustments or the default labels and the additional table from the saved additional labor or its labels, each ending in a blank row; autogrowth is armed, the lists match the rows, the estimated cell is kept, and final is the sum of its parts |
| Adjustments.Page.ResetPage | app/static/js/adjustments.js:405-474 | each table keeps exactly its base rows, in order, with their labels and zero percents and hours, plus at most one trailing blank row; the lists are rebuilt from those rows; the estimated labor hours are kept; both totals are 0 so final equals the estimated hours |
| Adjustments.Page.ConsumeSummaryReset | app/static/js/adjustments.js:584-597 | the page resets exactly when the stored reset timestamp is set and differs from the one seen; then the timestamp is recorded and the totals are zero, otherwise the session store is unchanged |
| Adjustments.ZeroHoursSum | app/static/js/adjustments.js:431-439 | rows whose hours are all 0 sum to 0 |
| Summary.MigrateFastToEidOnce | app/static/js/summary.js:16-43 | the storage afterwards is the migration result: fast totals and estimate data copied to the empty eid keys |
| Summary.MigrateNeverOverwrites | app/static/js/summary.js:16-43 | without an eid nothing changes; a non-empty value is never overwritten; keys other than the two eid keys keep their values; fast data that was present is afterwards readable under its eid key |
| Summary.Markup | app/static/js/summary.js:1-5 | the corrected multiplier is never below 1 |
| Summary.MarkupAsWritten | app/static/js/summary.js:1-5 | the table as written never marks down: every multiplier, including 200 at 100%, is at least 1 |
| Summary.MarkupMatchesServer | app/static/js/summary.js:1-5 | on every margin of the table the corrected multiplier is the server's margin_to_markup; outside the table it is 1; it differs from the table as written only at 100% |
| Summary.HundredPercentMarginAsWritten | app/static/js/summary.js:5 | as written, a 100% margin prices at 200 times the break-even cost, a hundred times the server's price; the corrected entry gives the server's price |
| Summary.NormalizePercent | app/static/js/summary.js:272-275 | parseInt of the value when it is a number that is not negative, otherwise the fallback |
| Summary.NormalizePercentOfDigits | app/static/js/summary.js:272-275 | a digit string normalizes to its value |
| Summary.SelectPercent | app/static/js/summary.js:358-362 | parseInt of the select value, 0 when it is not a number |
| Summary.OverheadClamp | app/static/js/summary.js:188-206 | the dropdown always shows and a change always stores an offered overhead; an offered value comes through unchanged; the persisted value is never negative |
| Summary.OverheadStoredUnclamped | app/static/js/summary.js:188-196 | a stored overhead that is not offered stays in storage while the dropdown shows 30 |
| Summary.StepCMatchesServer | app/static/js/summary.js:354-426 | the page's material section is material_adders, its overhead is overhead_value, break-even is prime cost plus overhead, the price is break-even times the markup; on a table margin below 100 it is estimated_sales_price and at 100 a hundred times that; the crew days are final hours / 8, / 16, / 32 |
| Summary.UpdateStepC | app/static/js/summary.js:354-426 | the markup is at least 1, the price is break-even times the markup and so never below a non-negative break-even with a non-negative profit, and the crew days divide the final hours by 8 and then by 2 |
| Summary.StepCMaterialMatches | app/static/js/summary.js:364-373 | the material section is exactly the server's material_adders |
| Summary.PercentCommutes | app/static/js/summary.js:364-392 | the page's (pct / 100) * amount is the server's amount * (pct / 100) |
| Summary.StepCPriceMatches | app/static/js/summary.js:383-420 | prime cost, overhead and break-even are the server's; the price is the server's on a table margin below 100 and a hundred times it at 100; the crew days divide the final hours |
| Summary.StepCMonotone | app/static/js/summary.js:354-405 | with non-negative inputs, base <= taxable <= total material <= prime cost <= break-even <= price |
| Summary.EeResetAll | app/static/js/summary.js:486-501 | with an eid nothing changes; otherwise the fast keys are removed, "ee.reset" holds the time stamp, and the session flag is set to "1" |
| Summary.ResetAllEffect | app/static/js/summary.js:492-495 | afterwards the fast keys read as missing, "ee.reset" reads as the stamp, and every other key is as it was |
| Summary.OverheadPercent | app/static/js/summary.js:389-393 | a saved number is used as it is; without one the percent is never 0, since 0 or unparsable text falls back to 30 |
| Summary.OverheadPercentFromDropdown | app/static/js/summary.js:389-393 | with nothing saved and an offered value in the dropdown, step C uses that value, which is the value the change handler stores |
| Dje.ToNumReadsCells | app/static/js/dje.js:17-22 | a digit string reads as its value, with or without a "$" in front, and null, NaN and a blank cell read as 0 |
| Dje.Ext | app/static/js/dje.js:97-105 | the extension is never negative and is 0 when the quantity or the cost is not positive |
| Dje.ExtOfInRange | app/static/js/dje.js:100-103 | on cells already in range the extension is quantity * multiplier * cost |
| Dje.ExtMonotone | app/static/js/dje.js:100-103 | more quantity never lowers the extension |
| Dje.SanitizeMulti | app/static/js/dje.js:124-128 | the multiplier text is always a canonical integer of at least 1 |
| Dje.SanitizeMultiKeeps | app/static/js/dje.js:124-128 | a canonical multiplier of at least 1 is kept, and input without digits becomes "1" |
| Dje.SanitizeMultiIdempotent | app/static/js/dje.js:124-128 | sanitizing twice is sanitizing once |
| Dje.OptionOf | app/static/js/dje.js:66-76 | an option is selected exactly when the selected id is non-blank and equals its value |
| Dje.Shown | app/static/js/dje.js:66-78 | there are never more options than items |
| Dje.ShownMembers | app/static/js/dje.js:66-78 | the options shown are exactly those of the active items |
| Dje.PopulateSelect | app/static/js/dje.js:61-80 | the placeholder comes first, then one option per active item in order, each selected exactly when its value is the non-blank selected id |
| Dje.ShownStep | app/static/js/dje.js:66-78 | one more item adds its option exactly when it is active |
| Dje.ShownSelected | app/static/js/dje.js:74-75 | every shown option is selected exactly when its value is the non-blank selected id |
| Dje.DescKeyShared | app/static/js/dje.js:51-52 | the joined cache key does not tell pairs apart: the pairs (a + "::" + b, c) and (a, b + "::" + c) share one entry |
| Dje.Caches.LoadCats | app/static/js/dje.js:39-43 | the server is asked exactly when nothing is held; otherwise the held list is returned unchanged, and a fetched list is held |
| Dje.Caches.LoadSubs | app/static/js/dje.js:44-50 | a blank category gives [] without a request; a cached category gives its list; otherwise the server's list is returned and cached under the category |
| Dje.Caches.LoadDescs | app/static/js/dje.js:51-58 | a blank name gives [] without a request; a cached key gives its list; otherwise the server's list is returned and cached under the joined key |
| Dje.OrElse | app/static/js/dje.js:138-143 | a non-empty value of the element wins, and a missing element or an empty value gives the default |
| Dje.RowIndex | app/static/js/dje.js:135-137 | a row has a slot exactly when its data-row parses to a non-negative integer, and the slot is that integer; a digit string gives its value |
| Dje.Holes | app/static/js/dje.js:145 | growing a JavaScript array leaves empty slots |
| Dje.Place | app/static/js/dje.js:145 | the array assignment sets slot i, growing the array with empty slots when i is beyond its end, and leaves every other slot |
| Dje.PopTrailing | app/static/js/dje.js:147 | the result is a prefix of the slots, ends in a filled slot or is empty, and only empty slots were popped |
| Dje.FillLastAt | app/static/js/dje.js:135-146 | every slot holds the row of the last table row placed there and no row is placed beyond the end |
| Dje.CollectRows | app/static/js/dje.js:131-149 | the loop places each usable row at its slot and then pops the trailing empty slots |
| Dje.CollectRowsSaves | app/static/js/dje.js:131-149 | slot k holds the last table row whose data-row reads as k, nothing lies beyond the last such slot, and the last entry is never empty |
| Dje.RowWithoutIndexSkipped | app/static/js/dje.js:135 | a row without a data-row is never saved |
| Dje.BlankLines | app/static/js/dje.js:245-262 | n blank lines numbered 0 to n - 1 |
| Dje.SumExtNonNegative | app/static/js/dje.js:107-112 | a sum of non-negative extensions is non-negative |
| Dje.SumExtBlank | app/static/js/dje.js:107-112 | blank lines total 0 |
| Dje.SetExtKeepsShape | app/static/js/dje.js:97-104 | showing a new non-negative extension on one line keeps the table's shape |
| Dje.Table.constructor | app/static/js/dje.js:330-345 | the page opens with max(10, saved row count) blank lines and total 0 |
| Dje.Table.EnsureAutogrow | app/static/js/dje.js:271-279 | one blank line numbered idx + 1 is appended exactly when the last line's data-row is idx; otherwise nothing changes |
| Dje.Table.UpdateHeaderTotal | app/static/js/dje.js:107-112 | the header total is the sum of the shown extensions and is never negative |
| Dje.Table.RecalcRow | app/static/js/dje.js:97-105 | line i's extension is recomputed from its own quantity, multiplier and cost, nothing else changes, and the total is the new sum |
| Dje.Table.Reset | app/static/js/dje.js:282-322 | after the reset exactly ten blank lines remain and the total is 0 |
| MaterialsIndex.SerializePayloadFields | app/static/js/materials_index.js:7-23 | serializePayload trims every text field and passes price, labor unit, unit size and the active flag as typed |
| MaterialsIndex.SerializePayloadIdempotent | app/static/js/materials_index.js:7-23 | serializing an already serialized payload changes nothing |
| MaterialsIndex.SerializePayloadKeepsTrimmed | app/static/js/materials_index.js:7-23 | a form whose text fields are already trimmed is sent unchanged |
| MaterialsIndex.FailingMembers | app/static/js/materials_index.js:75-81 | the error list holds exactly the checks that fail |
| MaterialsIndex.FailingRanked | app/static/js/materials_index.js:75-81 | the errors come out in the order the checks are written |
| MaterialsIndex.AddErrorsMeaning | app/static/js/materials_index.js:67-81 | each of the six messages appears exactly when its field is empty or the unit size is not 1, 100 or 1000; no errors exactly when all fields are filled and the unit size is allowed; an empty unit size gets both unit messages |
| MaterialsIndex.CheckAdd | app/static/js/materials_index.js:75-81 | the push-one-by-one loop builds exactly the specified error list |
| MaterialsIndex.OnAdd | app/static/js/materials_index.js:67-88 | onAdd alerts exactly when some check fails and otherwise posts the serialized form, whose unit size is then allowed |
| MaterialsIndex.BlankCategoryPosted | app/static/js/materials_index.js:69-88 | the checks see untrimmed values, so a category of blanks passes and is posted as an empty category |
| MaterialsIndex.SaveEditMeaning | app/static/js/materials_index.js:266-284 | the edit save refuses a blank trimmed description first, and sends the payload exactly when the description is not blank and parseInt of the unit size is 1, 100 or 1000 |
| MaterialsIndex.SaveEdit | app/static/js/materials_index.js:266-284 | a blank description is refused first; a payload that is sent is the form's payload and has a unit size of 1, 100 or 1000 |
| MaterialsIndex.HundredUnitsParses | app/static/js/materials_index.js:273 | parseInt("100 units", 10) reads 100 |
| MaterialsIndex.EditTakesLooserUnitSize | app/static/js/materials_index.js:266-284 | the edit modal accepts the unit size "100 units" that the add form refuses |
| MaterialsIndex.LongUnitSizeRefused | app/static/js/materials_index.js:81 | the add form refuses every unit size longer than four characters |
| MaterialsIndex.SentinelIndex | app/static/js/materials_index.js:128 | findIndex yields the first position of the "__new__" option, or none when it is missing |
| MaterialsIndex.InsertionPoint | app/static/js/materials_index.js:128-129 | the new option goes before the sentinel, or at the end when there is no sentinel |
| MaterialsIndex.CategorySelect.AddNewCategory | app/static/js/materials_index.js:124-132 | a name already present, ignoring case, is refused and nothing changes; otherwise it is inserted at the insertion point and selected |
| MaterialsIndex.CategorySelect.OnConfirm | app/static/js/materials_index.js:164-169 | a blank name gives "Name is required", an existing name "already exists", and otherwise the trimmed name is inserted and selected |
| MaterialsIndex.CategorySelect.OnModalHidden | app/static/js/materials_index.js:171-174 | closing the modal while the sentinel is selected clears the selection; the options are unchanged |
| MaterialsIndex.InsertCategoryShape | app/static/js/materials_index.js:128-129 | the insertion keeps every other option in order and leaves the sentinel right after the new option |
| MaterialsIndex.AddedCategoryRefusedAgain | app/static/js/materials_index.js:124-127 | once a category is added, adding it again in any letter case is refused |
| MaterialsIndex.ToTwoDecimalsMeaning | app/static/js/materials_index.js:308-311 | toTwoDecimals gives "" for blank or non-numeric text and the value of a digit string |
| MaterialsIndex.ClampTwoDecimalsMeaning | app/static/js/materials_index.js:312-316 | the clamped input keeps its leading digits and at most two digits after the point; text not starting with a digit is left alone |
| MaterialsIndex.ClampTwoDecimalsIdempotent | app/static/js/materials_index.js:312-316 | clamping an already clamped input changes nothing |
| DjeIndex.Clamp2Meaning | app/static/js/dje_index.js:47-52 | clamp2 gives "" for a missing or empty value, 0 for blanks, the value of a digit string, and reads trimmed text |
| DjeIndex.CostInvalidMeaning | app/static/js/dje_index.js:171-176 | a unit cost is refused exactly when it is blank or not a number; a blank cost is refused although Number reads it as 0 |
| DjeIndex.CheckedCostClamps | app/static/js/dje_index.js:176-178 | after the check passes, clamp2 of the raw cost is the number that was checked |
| DjeIndex.SubPoolMembers | app/static/js/dje_index.js:67-69 | allSubOpts keeps exactly the rendered subcategory options that carry a value other than the sentinel and a category |
| DjeIndex.MatchingMembers | app/static/js/dje_index.js:77-85 | populateSubOptions lists exactly the values of the options whose category matches, ignoring case |
| DjeIndex.AddedSubcategoryListed | app/static/js/dje_index.js:129-137 | an added subcategory is listed under its own category and under no other |
| DjeIndex.AddedSubcategoryRefusedAgain | app/static/js/dje_index.js:129-137 | a subcategory once added is refused again in any letter case |
| DjeIndex.SubcategoriesScoped | app/static/js/dje_index.js:129-137 | the same subcategory name stays free under every other category |
| DjeIndex.CatalogForm.constructor | app/static/js/dje_index.js:67-76 | on page load the pool is read and the subcategory select holds only its two fixed options, disabled |
| DjeIndex.CatalogForm.ResetSubSelect | app/static/js/dje_index.js:71-76 | resetSubSelect leaves only the blank and "+ New" options and sets the disabled flag as asked; nothing else changes |
| DjeIndex.CatalogForm.PopulateSubOptions | app/static/js/dje_index.js:77-85 | the subcategory select holds the blank option, the category's subcategories and then the sentinel, enabled and cleared |
| DjeIndex.CatalogForm.AddNewCategory | app/static/js/dje_index.js:117-128 | an existing category (any case) is refused and nothing changes; otherwise it is inserted before the sentinel, selected, and its subcategories listed |
| DjeIndex.CatalogForm.AddNewSubcategory | app/static/js/dje_index.js:129-137 | a subcategory the category already has is refused; otherwise it joins the pool, is inserted before the sentinel and selected |
| DjeIndex.CatalogForm.OnConfirm | app/static/js/dje_index.js:138-145 | a blank name is refused as required; otherwise the trimmed name is added as a category or a subcategory according to the open modal |
| DjeIndex.CatalogForm.OnCategoryChanged | app/static/js/dje_index.js:147-152 | an empty category resets the subcategories, the sentinel opens the category modal, any other value lists its subcategories |
| DjeIndex.CatalogForm.OnSubcategoryChanged | app/static/js/dje_index.js:153-160 | choosing the sentinel opens the subcategory modal for the chosen category, or is undone when no category is chosen |
| DjeIndex.CatalogForm.OnModalHidden | app/static/js/dje_index.js:105-116 | closing the modal undoes a sentinel choice left in the select and closes the mode |
| DjeIndex.CatalogForm.OnReset | app/static/js/dje_index.js:304-315 | the reset button clears the category and leaves the subcategory select reset and disabled |
| DjeIndex.FlaggedMembers | app/static/js/dje_index.js:171-176 | each create error is listed exactly when its check fails |
| DjeIndex.FlaggedRanked | app/static/js/dje_index.js:171-176 | the errors are listed in the order of the checks |
| DjeIndex.CreateErrorsMeaning | app/static/js/dje_index.js:171-176 | category, subcategory, description and unit-cost errors each appear exactly when that field fails |
| DjeIndex.CreateErrorsNone | app/static/js/dje_index.js:171-176 | a form has no errors exactly when every field passes |
| DjeIndex.CreateErrorsOrdered | app/static/js/dje_index.js:171-176 | the errors appear once each in form order, and the edit checks are the tail of the create checks |
| DjeIndex.CollectCreateErrors | app/static/js/dje_index.js:171-176 | pushing the checks one by one builds exactly the specified error list |
| DjeIndex.CreateItemMeaning | app/static/js/dje_index.js:163-206 | createItem posts exactly when the checks pass, with the checked number, the trimmed description and cost code, and active when the checkbox is missing |
| DjeIndex.SaveEditMeaning | app/static/js/dje_index.js:222-254 | the edit is sent exactly when there is an item id and both fields pass; the payload has the trimmed texts and the checked cost, and a missing checkbox means inactive |
| DjeIndex.DeleteLabelMeaning | app/static/js/dje_index.js:264-270 | the delete label is the trimmed description, else "category / subcategory", else whichever one is present, else "this item", and is never empty |
| AdminSettings.GetValMeaning | app/static/js/admin_settings.js:10-16 | getVal gives "" for a missing element, a select's or number input's value as it is, and a text input's value trimmed |
| AdminSettings.ToIntMeaning | app/static/js/admin_settings.js:44-49 | toInt gives the default for blank or letter-led text, a digit string's value, and otherwise the number parseInt reads from the trimmed text |
| AdminSettings.ToFloatMeaning | app/static/js/admin_settings.js:50-55 | toFloat gives the default for blank or letter-led text, a digit string's value, and otherwise the number parseFloat reads from the trimmed text |
| AdminSettings.CollectSettingsOrg | app/static/js/admin_settings.js:27-42 | the settings document is version 1 and carries all thirteen org keys, in order, with the form's values |
| AdminSettings.CollectSettingsDefaults | app/static/js/admin_settings.js:57-66 | a blank or missing labor rate reads 0, and each blank integer field reads its default (30, 10, 8, 10, 5, 3, 10) |
| AdminSettings.ReadPercentBlank | app/static/js/admin_settings.js:59-65 | a blank integer pricing field reads as its own default |
| AdminSettings.PercentOfCollected | app/static/js/admin_settings.js:57-68 | the k-th integer field of the document is the k-th pricing input read with toInt |
| AdminSettings.DefaultPercent | app/static/js/admin_settings.js:59-65 | the default pricing agrees with each field's default |
| AdminSettings.BlankReadsBlank | app/static/js/admin_settings.js:10-16 | a blank or missing element reads as blank text |
| AdminSettings.EmptyFormDefaults | app/static/js/admin_settings.js:27-68 | a page without any of the inputs collects to the default pricing |
| AdminSettings.Writes | app/static/js/admin_settings.js:71-98 | applyToForm makes one setVal per autosaved element |
| AdminSettings.SetField | app/static/js/admin_settings.js:18-23 | setVal never adds or removes an element |
| AdminSettings.ApplyAll | app/static/js/admin_settings.js:71-98 | a run of setVal calls never adds or removes an element |
| AdminSettings.ApplyAllMeaning | app/static/js/admin_settings.js:18-23 | setVal calls on distinct elements keep every element's kind, put each written value in place, keep the old value for null, and leave other elements alone |
| AdminSettings.WritesCoverAutosave | app/static/js/admin_settings.js:76-97 | applyToForm writes exactly the autosaved elements, in the order listed, each once |
| AdminSettings.AutosaveIdsDistinct | app/static/js/admin_settings.js:142-147 | no element appears twice in the autosave list |
| AdminSettings.SettingsForm.SetVal | app/static/js/admin_settings.js:18-23 | setVal on a missing element or with a null value changes nothing; otherwise it puts the value into the element and keeps its kind |
| AdminSettings.SettingsForm.ApplyToForm | app/static/js/admin_settings.js:71-98 | applyToForm leaves the form as the setVal calls of Writes, in order, make it |
| AdminSettings.SettingsForm.SetVals | app/static/js/admin_settings.js:76-97 | the loop of setVal calls leaves the form as the specified writes make it |
| AdminSettings.AppliedAt | app/static/js/admin_settings.js:76-97 | each element applyToForm writes ends up with the written value, or its old value when null |
| AdminSettings.LaborRateOnlyWhenNumeric | app/static/js/admin_settings.js:90 | a stored labor rate that is not a number leaves its input untouched |
| AdminSettings.MissingPercentKeeps | app/static/js/admin_settings.js:91-97 | a null or missing pricing value leaves its input untouched |
| AdminSettings.ReadPercentOfDigits | app/static/js/admin_settings.js:44-49 | an integer field holding a number's decimal text reads back as that number |
| AdminSettings.PercentRoundTrip | app/static/js/admin_settings.js:27-98 | a stored whole percentage, number or string, survives applying the settings to the form and collecting them again |
| AdminSettings.OrgRoundTrip | app/static/js/admin_settings.js:27-98 | a stored org text that needs no trimming survives applying the settings to the form and collecting them again |
| AdminSettings.PresentMembers | app/static/js/admin_settings.js:148-153 | the elements bound are exactly the listed ones present on the page |
| AdminSettings.AutosaveBoundMeaning | app/static/js/admin_settings.js:120-153 | without write permission nothing is bound for autosave; with it, exactly the listed elements present on the page are |
| CustomersIndex.DeriveCitySecondPart | app/static/js/customers_index.js:6-10 | deriveCity gives the second comma-separated part trimmed, or null when that part is blank |
| CustomersIndex.DeriveCityMeaning | app/static/js/customers_index.js:6-10 | a missing address or one without a comma has no city; a derived city is non-empty, trimmed and holds no comma |
| CustomersIndex.ServerKeepsRest | app/utils/validators.py:45-54 | the server's derivation keeps all of the text after the first comma |
| CustomersIndex.DeriveCityDiffersFromServer | app/static/js/customers_index.js:6-10 | for "a,b,c" the page derives "b" while the server derives "b,c" |
| CustomersIndex.CleanedMeaning | app/static/js/customers_index.js:3 | reading a field and collapsing its spaces gives "" exactly for blank text, and never more than the limit |
| CustomersIndex.ValidateMeaning | app/static/js/customers_index.js:13-35 | a customer is refused for a blank name first, then exactly when the page's pattern rejects the cleaned email, then exactly when a non-blank phone does not normalise; it is sent exactly when none of these holds, with a name of at most 255 characters, an email the server accepts, and a phone, when given, in its 14-character normal form |
| CustomersIndex.AddCustomer | app/static/js/customers_index.js:12-41 | addCustomer refuses exactly what the checks refuse and otherwise sends the checked customer with the city derived from its cleaned address |
| CustomersIndex.AddedCityFromAddress | app/static/js/customers_index.js:37-40 | a city is sent exactly when the cleaned address has a non-blank second part, and it is that part trimmed |
| CustomersIndex.CustomersPage.OnEditClicked | app/static/js/customers_index.js:67-68 | the edit button records the customer id to be saved |
| CustomersIndex.CustomersPage.SaveEdit | app/static/js/customers_index.js:87-107 | without a recorded customer nothing is sent; otherwise the same checks as adding decide between an alert and a PUT of the checked customer, with no city |
| EstimatesRoutes.PyGet | app/blueprints/estimates/routes.py:39 | data.get succeeds exactly on a dict and then gives the key's value, if any |
| EstimatesRoutes.StripText | app/blueprints/estimates/routes.py:39 | (v or "").strip() gives the stripped text of a string and "" for a falsy value, and fails with an AttributeError exactly for a truthy value that is not text |
| EstimatesRoutes.CustomerId | app/blueprints/estimates/routes.py:48-52 | customer_id is never negative and is None for text with anything but digits, for an integer that is not positive, and for any other kind of value |
| EstimatesRoutes.OptionalText | app/blueprints/estimates/routes.py:44-46 | _s gives the stripped text, or None when nothing is left |
| EstimatesRoutes.CustomerIdMeaning | app/blueprints/estimates/routes.py:48-52 | customer_id is never negative, round-trips through its decimal text, keeps a positive integer, and is None for blank text, 0 or text with anything but digits |
| EstimatesRoutes.ParseFields | app/blueprints/estimates/routes.py:37-52 | an accepted name is non-empty and stripped; the request is refused with "name required" exactly when the body is an object whose name is missing, falsy or blank |
| EstimatesRoutes.WithName | app/blueprints/estimates/routes.py:48-62 | once the name is accepted, reading the other fields never gives the name error and keeps the name |
| EstimatesRoutes.ParseFieldsNameRule | app/blueprints/estimates/routes.py:37-41 | a missing body or a blank name is refused, and an accepted name is the stripped text of the body's "name" |
| EstimatesRoutes.Snapshot | app/blueprints/estimates/routes.py:55-56 | the settings snapshot is the stored settings when they are an object, else an empty object |
| EstimatesRoutes.Estimate.constructor | app/blueprints/estimates/routes.py:58-69 | a new estimate holds the parsed fields, status "draft", an empty work payload, the snapshot and the caller's user and org |
| EstimatesRoutes.Create | app/blueprints/estimates/routes.py:35-75 | create refuses exactly what the field parsing refuses; otherwise it returns a fresh draft estimate with the parsed fields, an empty work payload, the settings snapshot and the caller's user and org |
| EstimatesRoutes.Apply | app/blueprints/estimates/routes.py:149-152 | the four assignments leave the estimate holding the parsed fields |
| EstimatesRoutes.Update | app/blueprints/estimates/routes.py:130-155 | a refused update changes nothing; an accepted one rewrites name, customer, project address and project reference with the parsed fields and nothing else |
| EstimatesRoutes.ResolveSummary | app/blueprints/estimates/routes.py:194-204 | resolving the summary fails exactly when the work payload is a truthy non-object, or holds an estimateData that is truthy but not an object |
| EstimatesRoutes.Section | app/blueprints/estimates/routes.py:206-226 | _get_controls and _get_cells take the object under the key in summary_export (or summaryExport) first, else the object under the key at the top level, and give None exactly when neither is an object or the summary is not an object |
| EstimatesRoutes.Nested | app/blueprints/estimates/routes.py:208 | the nested export is summary_export when that is an object, and summaryExport otherwise |
| EstimatesRoutes.SectionRowsExactlyOnce | app/blueprints/estimates/routes.py:247-253 | with distinct fixed keys, the rows of a section name each key of the dict exactly once, in that section, with the dict's value |
| EstimatesRoutes.SectionRowsOrder | app/blueprints/estimates/routes.py:247-253 | the fixed-order keys come first in the fixed order, and the other keys follow in dict order |
| EstimatesRoutes.CsvRowsMeaning | app/blueprints/estimates/routes.py:232-292 | the CSV starts with the header ["section","key","value"], then controls rows, then cells rows, then totals rows, and totals rows appear exactly when there are no cells and the totals are a non-empty object |
| EstimatesRoutes.ControlOrderDistinct | app/blueprints/estimates/routes.py:237-246 | the fixed controls list names no key twice |
| EstimatesRoutes.CellOrderDistinct | app/blueprints/estimates/routes.py:256-280 | the fixed cells list names no key twice |
| EstimatesRoutes.CsvWriter.WriteRow | app/blueprints/estimates/routes.py:233-234 | writing a row appends it to the rows written so far |
| EstimatesRoutes.WriteFixed | app/blueprints/estimates/routes.py:248-250 | the first loop appends exactly the rows of the present fixed-order keys |
| EstimatesRoutes.WriteRest | app/blueprints/estimates/routes.py:251-253 | the second loop appends exactly the rows of the remaining entries in dict order |
| EstimatesRoutes.WriteSection | app/blueprints/estimates/routes.py:247-253 | the two loops together append exactly the section's rows |
| EstimatesRoutes.WriteCsv | app/blueprints/estimates/routes.py:232-292 | the writer ends with exactly the header, controls, cells and totals rows that CsvRowsMeaning describes |
| EstimatesRoutes.ExportSummaryCsv | app/blueprints/estimates/routes.py:186-303 | the route's rows are those of the resolved summary's sections, or the failure of resolving it |
| EstimatesRoutes.SummaryCsv | app/blueprints/estimates/routes.py:186-260 | the CSV fails exactly when resolving the summary fails, with that failure |
| EstimatesRoutes.ToDec | app/blueprints/estimates/routes.py:344 | to_dec reads None, null and "" as 0, an integer or a float as itself, a digit string as its value, and fails on text Decimal refuses and on booleans, lists and objects |
| EstimatesRoutes.SavedTotalsDefaults | app/blueprints/estimates/routes.py:347-351 | an estimate without totals, or with blank totals, lists 0 and 0 |
| EstimatesRoutes.IndexTotalsMeaning | app/blueprints/estimates/routes.py:342-351 | the listed material total is within half a cent and the labor total within half of 0.0001 of the saved figures; saved zeros list as zeros |
| NumParse.QuantizeClose | app/blueprints/estimates/routes.py:342-343 | quantising half-up to a number of places moves a value by at most half a unit of the last place |
| Persistence.Norm | app/services/persistence.py:14-18 | a missing column normalizes to the empty text and an empty cell (NaN) to "nan", its str() |
| Persistence.NormShape | app/services/persistence.py:14-18 | _norm's result has no whitespace at its ends, only single spaces inside, and no upper-case letter |
| Persistence.NormIdempotent | app/services/persistence.py:14-18 | normalizing a normalized value changes nothing |
| Persistence.NormIgnoresCase | app/services/persistence.py:14-18 | the normalized form ignores letter case |
| Persistence.NormIgnoresEnds | app/services/persistence.py:14-18 | the normalized form ignores whitespace around the value |
| Persistence.JoinBarHasBar | app/services/persistence.py:55 | a key joined from two or more parts always holds a bar |
| Persistence.SplitJoinBar | app/services/persistence.py:55 | when no part holds a bar, splitting the key on the bar gives the parts back |
| Persistence.JoinBarFour | app/services/persistence.py:55 | the four identifying columns are joined with a bar between each two |
| Persistence.SeedKeyProps | app/services/persistence.py:50-57 | a provided non-blank seed_key wins; otherwise the key is the bar-joined normal forms, is never empty, holds a bar, and splits back into those normal forms when none holds a bar |
| Persistence.EmptyCellKeyedAsNan | app/services/persistence.py:53-57 | an empty manufacturer cell enters the key as "nan" and a missing manufacturer column as nothing, so the two workbooks key the same material differently |
| Persistence.UnitSize | app/services/persistence.py:63 | an empty or non-numeric unit size is 1, and a number is cut to an integer less than one away from it |
| Persistence.UnitSizeExact | app/services/persistence.py:63 | a whole-number unit size is kept exactly |
| Persistence.FirstInvalidUnit | app/services/persistence.py:65-68 | the guard finds nothing exactly when every unit size is 1, 100 or 1000, and otherwise the first row whose unit size is not |
| Persistence.Stripped | app/services/persistence.py:204-206 | `(x or "").strip()` fails exactly on an empty (NaN) cell, gives "" for a missing column and the stripped text otherwise |
| Persistence.StrippedOrNone | app/services/persistence.py:96-97 | `(x or "").strip() or None` fails exactly on an empty (NaN) cell, is None exactly for a missing or blank value, and otherwise is the non-empty stripped text |
| Persistence.OrNone | app/services/persistence.py:101-107 | `x or None` binds NULL exactly for a missing column or empty text, passes an empty cell's NaN through, and keeps any other text |
| Persistence.MaterialParamsOf | app/services/persistence.py:93-114 | a materials row fails exactly when its type or description cell is empty; otherwise its parameters carry the seed key, pack, version and time, the numbers with 0 for a missing one, active unless set otherwise, the checked unit size, the stripped type and description, and every other text as `x or None` |
| Persistence.DjeParamsOf | app/services/persistence.py:201-216 | a DJE row fails exactly when its category or description cell is empty; otherwise its parameters carry the seed key, pack, version and time, the cost with 0 for a missing one, active unless set otherwise, the stripped category and description, and the other texts as `x or None` |
| Persistence.MaterialParamsList | app/services/persistence.py:82-114 | the loop fails exactly when some row has an empty type or description cell, and otherwise builds one parameter set per row with that row's seed key |
| Persistence.DjeParamsList | app/services/persistence.py:191-216 | the loop fails exactly when some row has an empty category or description cell, and otherwise builds one parameter set per row with that row's seed key |
| Persistence.Upserted | app/services/persistence.py:118-154 | INSERT ... ON CONFLICT (seed_key) DO UPDATE creates a new key at the current time, gives an existing key the new values while keeping its creation time, and leaves other rows alone |
| Persistence.UpsertAll | app/services/persistence.py:153-154 | the batch keeps every row already present, with its creation time, and holds every key it was given |
| Persistence.UpsertAllProps | app/services/persistence.py:153-154 | after the batch the table holds the old keys plus the batch's keys; each batch key holds the parameters of its last occurrence; old rows keep their creation time and rows outside the batch are untouched |
| Persistence.UpsertAllKeeps | app/services/persistence.py:153-154 | the batch adds its keys, keeps every creation time and leaves rows outside the batch alone |
| Persistence.UpsertAllLastWins | app/services/persistence.py:153-154 | a key given twice in one batch ends with the parameters of its last occurrence |
| Persistence.Arbiters | migrations/versions/ce28d9cfd6bd_seed_add_provenance_cols_seed_.py:49-78 | the indexes PostgreSQL infers for a conflict target are exactly the unique indexes on the target's columns whose predicate is absent or the target's own |
| Persistence.AsWrittenTargetInfersNothing | app/services/persistence.py:132 | `ON CONFLICT (seed_key)` without a predicate infers neither seed index of materials or dje_items, so the statement has no arbiter and is refused |
| Persistence.IntendedTargetInfersGlobalIndex | app/services/persistence.py:132 | the target with the global seed predicate infers exactly the global seed index of each table |
| Persistence.CountsAddUp | app/services/persistence.py:87-91 | every row is counted once, as inserted or as updated |
| Persistence.ClassifyAsWritten | app/services/persistence.py:82-91 | the loop as written raises on an empty key and otherwise counts every row whose key was not present before the loop as inserted |
| Persistence.DuplicateKeyOvercounts | app/services/persistence.py:82-91 | a batch repeating a new key counts two inserts while the table gains one row |
| Persistence.AsWrittenCountsAtLeastGrowth | app/services/persistence.py:82-91 | the as-written inserted count is never below the number of keys the batch adds, and equals it when the batch's keys are distinct |
| Persistence.Classify | app/services/persistence.py:82-91 | the corrected loop raises on an empty key and otherwise counts as inserted the number of keys the batch adds, with inserted plus updated equal to the number of rows |
| Persistence.InsertedIsGrowth | app/services/persistence.py:118-156 | the corrected inserted count is exactly how many rows the upsert adds to the table |
| Persistence.SeedKeysNeverEmpty | app/services/persistence.py:84-85 | every materials row reaches the loop with a non-empty key, so "Missing seed_key" cannot be raised |
| Persistence.DjeSeedKeysNeverEmpty | app/services/persistence.py:192-194 | every DJE row reaches the loop with a non-empty key, so "Missing seed_key" cannot be raised |
| Persistence.SeedStore.UpsertMaterials | app/services/persistence.py:153-154 | the materials statement writes its rows one by one under the system normalised index; it succeeds exactly when no row clashes, leaving the table the row-by-row upsert leaves, and otherwise rolls back to the old table; the index holds afterwards |
| Persistence.SeedStore.UpsertDje | app/services/persistence.py:245-246 | the DJE statement writes its rows one by one under the system normalised index; it succeeds exactly when no row clashes, leaving the table the row-by-row upsert leaves, and otherwise rolls back to the old table; the index holds afterwards |
| Persistence.SeedStore.ImportMaterialsStarterPack | app/services/persistence.py:25-156 | a workbook without is_active raises first, then a bad unit size raises with that row's seed key, then an empty type or description cell raises, all before anything is written; a pack with two active rows of one normalised type and description raises and nothing stays written; otherwise every row is upserted and the as-written counts are returned, inserted plus updated equal to the number of rows; the system index holds throughout |
| Persistence.SeedStore.ImportDjeStarterPack | app/services/persistence.py:159-248 | a workbook without is_active raises first, then an empty category or description cell raises, before anything is written; a pack with two active rows of one normalised category, description and vendor raises and nothing stays written; otherwise every row is upserted on its seed key and the as-written counts are returned, inserted plus updated equal to the number of rows; the system index holds throughout |
| Persistence.MaterialSystemKey | migrations/versions/74ea543409d9_materials_per_org_normalized_unique_.py:53-60 | a materials row has an entry in the system index exactly when it is active and has a type and a description; the entry is the lower-cased, space-trimmed pair |
| Persistence.DjeSystemKey | migrations/versions/ec330bbf71f5_dje_per_org_normalized_unique_index_.py:50-68 | a DJE row has an entry in the system index exactly when it is active; the entry is category, description and vendor, lower-cased and space-trimmed, with "" for no vendor |
| Persistence.UpsertCheckedProps | app/services/persistence.py:153-154 | a batch the index admits leaves the table the unchecked upsert leaves, and the index still holds |
| Persistence.UpsertCheckedFailStays | app/services/persistence.py:153-154 | once a prefix of the batch clashes, the whole statement fails |
| Persistence.UpsertCheckedStep | app/services/persistence.py:153-154 | one more row of the batch is the prefix's table with that row upserted when the index still holds, and a failure otherwise |
| Persistence.SecondEntryRefused | app/services/persistence.py:153-154 | into an empty table the first row is admitted and a second row with another seed key and the same index entry is refused |
| Persistence.SameMaterialTwiceRefused | migrations/versions/74ea543409d9_materials_per_org_normalized_unique_.py:53-60 | two active materials rows of one type and description, differing only in other columns, cannot both be seeded |
| Persistence.SameDjeItemTwiceRefused | migrations/versions/ec330bbf71f5_dje_per_org_normalized_unique_index_.py:111-115 | two active DJE rows of one category, description and vendor cannot both be seeded |
| ImportMaterials.CleanStr | db/import_materials.py:54-60 | clean_str gives "" or the stripped text, and never a text that reads "nan" or "none" in any letter case |
| ImportMaterials.CleanStrIdempotent | db/import_materials.py:54-60 | the cleaned text is stripped and cleaning it again changes nothing |
| ImportMaterials.CleanStrPlaceholders | db/import_materials.py:54-60 | "NaN" and " None" clean to "" while other text such as "nano" is kept |
| ImportMaterials.ToDecimalBlank | db/import_materials.py:63-66 | to_decimal gives the default for a missing, blank or placeholder value |
| ImportMaterials.ToDecimalRefused | db/import_materials.py:67-70 | to_decimal gives the default for text Decimal() refuses |
| ImportMaterials.ToDecimalDigits | db/import_materials.py:63-68 | to_decimal of a plain digit string is its value |
| ImportMaterials.UnitValue | db/import_materials.py:139-153 | a unit that passes the rule is stored as 1, 100 or 1000 |
| ImportMaterials.BadUnits | db/import_materials.py:140-144 | the error lists each failing unit value once, in order of first appearance, and is empty exactly when every unit passes |
| ImportMaterials.TextAsWritten | db/import_materials.py:147-154 | the text columns as written never become NULL: an empty cell turns into the text "nan" before the NaN replacement |
| ImportMaterials.TextCell | db/import_materials.py:146-154 | with the evident intent, an empty text cell is written as NULL and a present one stripped |
| ImportMaterials.EmptyCellBecomesNan | db/import_materials.py:147-154 | an empty description cell is stored as "nan" as written, where NULL was meant |
| ImportMaterials.PrepareRow | db/import_materials.py:97-154 | with the evident intent of the column selection and the NaN replacement, a prepared row is active, has its numbers with 0 for a missing one, a unit of 1, 100 or 1000, NULL text exactly for empty cells, and the four cost codes of the sheet row |
| ImportMaterials.Prepare | db/import_materials.py:97-154 | preparation raises with the distinct failing unit values exactly when some row fails the rule, and otherwise prepares every row as written, so no prepared row carries a cost code |
| ImportMaterials.Head | db/import_materials.py:165-166 | head(limit) keeps the first limit rows, drops that many rows from the end for a negative limit, and keeps all rows without a limit |
| ImportMaterials.PreparedKey | db/import_materials.py:252-256 | a prepared row's conflict key is its trimmed type and description, lower-cased |
| ImportMaterials.FindActive | db/import_materials.py:252-256 | the conflict search finds an active row with the same key, or establishes that no active row has it |
| ImportMaterials.Merge | db/import_materials.py:257-268 | DO UPDATE SET takes the listed fields from the new row and keeps type, description and is_active |
| ImportMaterials.UpsertRowProps | db/import_materials.py:245-274 | one row of the statement either updates in place, keeping the active count, or appends one active row; the unique index still holds |
| ImportMaterials.UpsertAllProps | db/import_materials.py:245-274 | the whole batch keeps the unique index, never removes rows, and adds exactly as many rows as the active count grows |
| ImportMaterials.PrepareRowAsWritten | db/import_materials.py:97-154 | the row as written is active, has its numbers with 0 for a missing one and a unit of 1, 100 or 1000, carries the five stripped text columns as text, never NULL, so its conflict key is always present, and has NULL in all four cost-code columns, which the column selection dropped |
| ImportMaterials.EmptyDescriptionsClash | db/import_materials.py:147-154 | two rows of one type with empty descriptions share the key "nan" as written and make the statement fail, while with NULL descriptions they do not conflict |
| ImportMaterials.InsertedEstimate | db/import_materials.py:283 | the estimate is after minus before, or 0 when the count shrank |
| ImportMaterials.MaterialsDb.Upsert | db/import_materials.py:170-289 | a dry run stops before connecting; a missing index stops before writing; a page with two rows of one key fails and is rolled back; otherwise every row is upserted and the estimate is the number of rows added; a batch without cost codes leaves every row it adds or updates without them |
| ImportMaterials.MaterialsDb.Run | db/import_materials.py:97-289 | the unit rule raises first, even on a dry run; then a dry run changes nothing, a missing index stops before writing, a page with two rows of one key fails and changes nothing, and otherwise the first limit rows are upserted, the estimate is the number of rows added, and every row added or updated has its cost codes set to NULL |
| ImportMaterials.EstimateCountsNewRows | db/import_materials.py:280-283 | the inserted estimate counts exactly the rows the batch appended, each of them active |
| ImportMaterials.SecondRunAddsNothing | db/import_materials.py:245-274 | running the same row twice adds nothing the second time |
| ImportMaterials.CostCodesWiped | db/import_materials.py:97-118 | a sheet row with cost code "M-1" matching a stored row with code "M-1" is written as NULL by the code as written and the stored code is lost; the intended preparation keeps "M-1" |
| ImportMaterials.UpsertAllClearsCostCodes | db/import_materials.py:255-268 | upserting rows without cost codes never shortens the table and leaves every added or changed row without cost codes |
| ImportDje.ToBool | db/import_dje_items.py:118-122 | to_bool is true for an empty cell and for the words true, t, yes, y and 1, and false for "false" |
| ImportDje.ToBoolIgnoresCase | db/import_dje_items.py:118-122 | to_bool ignores letter case |
| ImportDje.ToBoolIgnoresBlanks | db/import_dje_items.py:118-122 | to_bool ignores whitespace around the word |
| ImportDje.ToBoolOtherWords | db/import_dje_items.py:118-122 | a non-blank word other than true, t, yes, y and 1 is false in any case and with any surrounding blanks |
| ImportDje.TextClean | db/import_dje_items.py:107-109 | the text cleanup strips a cell and turns a missing cell and the placeholders "", "nan", "None" and "NaN" into NULL; what is kept is non-empty, stripped and not a placeholder |
| ImportDje.PlaceholderCaseSensitive | db/import_dje_items.py:109 | the placeholder match is case-sensitive: "NONE" is kept here while the materials importer's clean_str drops it |
| ImportDje.TextCleanIdempotent | db/import_dje_items.py:107-109 | cleaning an already cleaned cell changes nothing |
| ImportDje.PrepareRow | db/import_dje_items.py:106-128 | a prepared row is active, has cleaned category, description and vendor, and its cost with 0 for a missing one |
| ImportDje.Prepare | db/import_dje_items.py:106-128 | every row of the sheet is prepared, in order |
| ImportDje.NullVendorIsEmpty | db/import_dje_items.py:192-196 | rows differing only in a missing versus an empty vendor share a conflict key |
| ImportDje.FindActive | db/import_dje_items.py:192-197 | the conflict search finds an active row with the same key, or establishes that no active row has it |
| ImportDje.Merge | db/import_dje_items.py:198-202 | DO UPDATE SET takes only the subcategory, the cost and the cost code from the new row |
| ImportDje.UpsertRowProps | db/import_dje_items.py:186-207 | one row of the statement either updates the active row of its key in place or appends one active row; the unique index still holds |
| ImportDje.UpsertAllProps | db/import_dje_items.py:186-207 | the whole batch keeps the unique index, never removes rows, and adds exactly as many rows as the active count grows |
| ImportDje.PlaceholderRowRefused | migrations/versions/723ffaf3d0ec_s3_03b_1_create_dje_items_catalog_no_.py:33-47 | a row whose category or description cell is empty or a placeholder, or whose cost is negative, is one the table refuses: category and description are NOT NULL and the cost has a CHECK that it is not negative |
| ImportDje.AcceptedRowsComplete | migrations/versions/723ffaf3d0ec_s3_03b_1_create_dje_items_catalog_no_.py:33-47 | every row a successful batch adds has a category, a description and a cost that is not negative |
| ImportDje.EstimateCountsNewRows | db/import_dje_items.py:213-216 | the inserted estimate is the number of rows the batch added |
| ImportDje.DjeDb.UpsertEach | db/import_dje_items.py:186-207 | the statements leave the table as the row-by-row upsert does, keep the unique index, and grow the active count by the rows they add |
| ImportDje.DjeDb.Upsert | db/import_dje_items.py:144-222 | a dry run stops before connecting; the guardrail stops a table without its index; a page with two rows of one key, or a row with a NULL category or description or a negative cost, fails and is rolled back; otherwise every row is upserted and the estimate is the number of rows added |
| ImportDje.DjeDb.Run | db/import_dje_items.py:132-141 | a dry run changes nothing; a table without its index stops the run; a batch with two rows of one key in a page or a row the table refuses fails and changes nothing; otherwise the first limit prepared rows are upserted, the estimate is the number of rows added, and every added row has a category and a description |
| Assemblies.ToIntOrDefault | app/services/assemblies.py:13-18 | _to_int_or_default gives the default or a positive integer |
| Assemblies.ToIntOrDefaultMeaning | app/services/assemblies.py:13-18 | positive integers pass through; zero, negatives, None, containers and text that is not an integer give the default, so with default 1 the divisor is at least 1 |
| Assemblies.ToDecimalMeaning | app/services/assemblies.py:21-25 | _to_decimal reads None, unparsable text, booleans and containers as 0 and numbers as themselves |
| Assemblies.RollupRows | app/services/assemblies.py:39-50 | the roll-up query selects at most one row per component |
| Assemblies.Divisor | app/services/assemblies.py:58 | the per-unit divisor of a row is at least 1 |
| Assemblies.SumsAppend | app/services/assemblies.py:56-64 | the material and labor sums split over a concatenation, so the order of the query's rows does not change them |
| Assemblies.RollupOfNothing | app/services/assemblies.py:52-74 | an assembly with no selected components rolls up to zero totals and a count of 0 |
| Assemblies.RollupMeaning | app/services/assemblies.py:52-74 | the count is the number of rows summed, and each total is the exact sum quantised to within half of 0.0001 |
| Assemblies.SumsNonNegative | app/services/assemblies.py:56-64 | non-negative quantities, prices and labor units give non-negative sums |
| Assemblies.RollupNonNegative | app/services/assemblies.py:52-74 | non-negative inputs give non-negative quantised totals |
| Assemblies.RollupAddComponent | app/services/assemblies.py:39-64 | adding an inactive component or one of another assembly leaves the roll-up rows alone; adding a selected one adds exactly its row, its two terms and one to the count |
| Assemblies.RowTerms | app/services/assemblies.py:58-64 | a component contributes qty times price over the divisor and qty times labor unit over the divisor, a NULL price or labor unit counting as 0 |
| Assemblies.OrNone | app/services/assemblies.py:149-152 | value or None turns an empty optional text into None and keeps any other |
| Assemblies.ReplaceKeepsNames | app/services/assemblies.py:164-196 | replacing a row by one whose active name no other active row holds keeps active names unique |
| Assemblies.AppendKeepsNames | app/services/assemblies.py:145-161 | appending a row whose active name no active row holds keeps active names unique |
| Assemblies.Updated | app/services/assemblies.py:176-189 | each argument given replaces its field, the name stripped and an empty optional text as None; omitted fields and is_active stay |
| Assemblies.UpdateNothing | app/services/assemblies.py:164-189 | an update without arguments changes nothing |
| Assemblies.Catalog.GetAssembly | app/services/assemblies.py:89-98 | get_assembly fails exactly when the id is missing, or the assembly is inactive and only active ones are wanted, and otherwise returns that assembly |
| Assemblies.Catalog.GetAssemblyRollup | app/services/assemblies.py:28-74 | the loop over the selected rows returns exactly the specified roll-up |
| Assemblies.Catalog.CreateAssembly | app/services/assemblies.py:135-161 | refused as blank exactly when the stripped name is empty, as a duplicate exactly when an active assembly holds it, each without change; it succeeds exactly otherwise, appending one active row with the stripped name and empty optionals as None |
| Assemblies.Catalog.UpdateAssembly | app/services/assemblies.py:164-196 | refused as missing exactly for an unknown id and as blank exactly for a given blank name; a duplicate exactly when the assembly is active and its updated name is held by another active one; it succeeds exactly otherwise, the row becoming the updated one, and every refusal changes nothing |
| Assemblies.Catalog.SetAssemblyActive | app/services/assemblies.py:199-204 | refused exactly for an unknown id; an integrity failure exactly when a reactivation meets another active assembly of the same name; it succeeds exactly otherwise, changing only that assembly's active flag, and a failure changes nothing |
| Assemblies.Catalog.AddComponent | app/services/assemblies.py:232-257 | refused exactly when the assembly is missing, then exactly when the material is missing, then exactly when an active link of that material exists on the assembly, each without change; it succeeds exactly otherwise, appending one active component |
| Assemblies.Catalog.SetComponentActive | app/services/assemblies.py:283-296 | refused exactly for an unknown component; an integrity failure exactly when a reactivation meets another active link of the same assembly and material; it succeeds exactly otherwise, changing only that component's active flag, and a failure changes nothing |
| AdminAssemblies.FeaturedFilter | app/blueprints/admin/assemblies.py:66-68 | "yes" keeps exactly the featured rows and "no" exactly the others; any other value keeps every row |
| AdminAssemblies.KeepFeatured | app/blueprints/admin/assemblies.py:67-68 | the comprehension keeps exactly the rows whose featured flag is the wanted one |
| AdminAssemblies.FeaturedSplit | app/blueprints/admin/assemblies.py:66-68 | the "yes" and "no" lists split the rows: every row lands in exactly one |
| AdminAssemblies.IsFeatured | app/blueprints/admin/assemblies.py:97 | is_featured is true exactly when the form sends "on", "true" or "1" |
| AdminAssemblies.MaterialIdBlank | app/blueprints/admin/assemblies.py:152-155 | a missing or blank material id reads as 0 |
| AdminAssemblies.FormErrorsMeaning | app/blueprints/admin/assemblies.py:160-175 | "Material is required" appears exactly when the id is not positive, the quantity gets exactly one of its two messages when it is not a number or not positive, the sort message appears exactly when a non-blank sort is not an integer, and the form is clean exactly when all fields are acceptable |
| AdminAssemblies.CollectErrors | app/blueprints/admin/assemblies.py:160-175 | appending the checks step by step builds exactly the specified error list, and a clean form carries the parsed values |
| AdminAssemblies.AddComponentRoute | app/blueprints/admin/assemblies.py:145-199 | an unknown assembly flashes "Assembly not found." and goes back to the new page without change; form errors are all flashed and nothing is written; otherwise a missing material flashes "Material {id} not found.", an existing active link flashes the duplicate message, each without change, and else one active component with the parsed values is appended and "Component added." flashed |
| AdminAssemblies.Submit | app/blueprints/admin/assemblies.py:177-199 | with errors every message is flashed and nothing changes; otherwise a missing material or an existing active link flashes its message without change, and else exactly one new active component is appended and "Component added." flashed; the route always returns to the edit page |
| AdminAssemblies.Messages | app/blueprints/admin/assemblies.py:178-179 | every error is flashed, in order, each as its own message |
| AdminAssemblies.FailureMessage | app/services/assemblies.py:97-292 | a missing assembly reads "Assembly {id} not found", a missing material "Material {id} not found.", a missing component "Component {id} not found.", and an integrity failure "Database error adding component." or "Database error updating component." |
| AdminAssemblies.MaterialMessageNamesId | app/services/assemblies.py:244 | the missing-material message is "Material ", the decimal id, " not found.", and the id reads back from the text between them |
| AdminAssemblies.SetComponentActiveRoute | app/blueprints/admin/assemblies.py:219-261 | a missing component or one of another assembly flashes "Component not found." without change; a reactivation onto a second live link flashes "Database error updating component." without change; otherwise exactly that component's active flag changes and "Component reactivated." or "Component deactivated." is flashed |
| NumParse.NatToStringRoundTrip | app/static/js/admin_settings.js:91-97 | rendering a count with String(n) gives a canonical digit string that reads back as n |
| NumParse.IntToString | app/services/assemblies.py:244 | the decimal text Python writes for an id reads back as that id through int(), and starts with "-" exactly for a negative id |
| NumParse.CanonicalRoundTrip | app/static/js/admin_settings.js:91-97 | every canonical digit string is the rendering of the number it denotes |
| NumParse.ParseIntOfDigits | app/blueprints/estimates/routes.py:48-52 | a non-empty all-digit id is read by int() and by parseInt as its decimal value |
| NumParse.PyDecimalOfDigits | app/blueprints/estimates/routes.py:344 | Decimal(str(v)) of a plain digit string is its value |
| NumParse.JsNumberTrim | app/static/js/dje_index.js:175 | Number() ignores whitespace around the text |
| NumParse.JsParseIntLeading | app/static/js/materials_index.js:273 | parseInt reads the leading digit run and ignores the text after it |
| NumParse.JsParseFloatNoNumber | app/static/js/admin_settings.js:50-55 | parseFloat of blank text or text starting with a letter is NaN, so the caller's fallback applies |
| NumParse.TruncProps | app/services/assemblies.py:13-25 | int() of a float drops the fraction toward zero and is positive exactly when the value is at least 1 |
| NumParse.QuantizeHalfUpBounds | app/blueprints/estimates/routes.py:342-343 | quantize with ROUND_HALF_UP gives a whole number of units within half a unit of the value, ties away from zero, sign kept |

## Left out

- **Stripe.** Stripe reconciliation (ledger, checkout-completed and invoice handling) is not part of this model. The only webhook route in the source is the email route. The Stripe client wrapper and its SHA-256 idempotency keys are left out for the same reason. Where checkout and portal use the gateway, the URL it returns is a parameter.
- **HMAC and JSON.** HMAC-SHA256 is a function-typed parameter of `EmailWebhook`, and so is JSON decoding of the webhook body. Token signing, password hashing, mail sending and templates are left out.
- **Database and Flask plumbing.** Sessions, queries, commits, redirects, flash rendering, security headers and logging are not modelled. Query results are given as row lists, and `ORDER BY` and `DISTINCT` are not modelled. A failed flush is modelled as "every row as it was".
- **Uniqueness.** Uniqueness that the database enforces is a `Valid` predicate of the modelled table or store. `Persistence.SeedStore.Valid` states the two system normalised indexes: `ux_materials_active_norm_system` and `ux_dje_active_norm_system`. They are checked row by row, and a clash rolls the whole batch back. The org-scoped indexes are not modelled, because the seed store holds only global rows.
- Persistence.DjeSystemKey: a NaN vendor is keyed as the text "NaN". What the driver binds for NaN is not modelled.
- **Floating-point presentation.** `toFixed`, `round(..., 2)`, pandas `round(4)`, `Intl.NumberFormat`, currency and day formatting (`formatDays`) and the CSV's number formatting are not modelled. `MaterialsIndex.ToTwoDecimals` keeps `toFixed(2)` abstract.
- **Floating-point arithmetic.** Numbers are exact reals, so binary floating-point error is not modelled.
- Calculations.MarginToMarkup: the source rounds the multiplier to 2 decimals below a 100% margin (app/services/calculations.py:58), and the price uses that rounded value. The model keeps the multiplier exact, so its `k * (1 - m) == 1` holds only up to that rounding in the source.
- Calculations.EstimatedSalesPrice: the price is the break-even cost times the exact multiplier, not the multiplier rounded to 2 decimals.
- Calculations.SalesPriceKeepsMargin: the price keeps the margin exactly in the model. In the source it keeps it only up to the rounding of the multiplier.
- Adjustments.PercentHours: the input shows `(percent / 100 * base).toFixed(2)` (app/static/js/adjustments.js:486, 499). The model keeps the exact product, and the row totals add exact hours, not the rounded text.
- Adjustments.LaborTable.SetPercent: the hours written into the row are exact, not the 2-decimal text the input shows (app/static/js/adjustments.js:486, 499).
- Adjustments.LaborTable.FillRows: saved hours are kept exact, not written as `hours.toFixed(2)` (app/static/js/adjustments.js:105, 146).
- Adjustments.Page.OnAdjPercentChange: the new row's hours are exact, not rounded to 2 decimals (app/static/js/adjustments.js:486).
- Adjustments.Page.OnAddPercentChange: the base is the exact adjusted total, not `parseFloat` of its rounded text (app/static/js/adjustments.js:387, 495). The hours are exact, not rounded to 2 decimals (line 499).
- Dje.Table.RecalcRow: the extension is the exact `q * m * c`, not the `money()` text (app/static/js/dje.js:103).
- Dje.Table.UpdateHeaderTotal: the total adds the exact extensions. The source adds the rounded `money()` texts back up (app/static/js/dje.js:111).
- DjeIndex.CreateItemMeaning: the unit cost is the exact number typed, not the `clamp2` 2-decimal value (app/static/js/dje_index.js:178-182).
- DjeIndex.SaveEditMeaning: the unit cost is the exact number typed, not the `clamp2` 2-decimal value (app/static/js/dje_index.js:234-238).
- Summary.Markup: the table's `toFixed(2)` rounding is not modelled. The multiplier is exact.
- ApiMaterials.PerEach: the `round(..., 4)` of the per-each values is not modelled. The quotient is exact.
- ApiMaterials.Shape: the `round(..., 4)` of price, labor unit and the per-each values is not modelled, so `priceEach * divisor == price` holds exactly in the model and only to 4 decimals in the source.
- Persistence.MaterialParamsOf and Persistence.DjeParamsOf: the `.round(2)` of prices, labor units and DJE unit costs is not modelled.
- ImportMaterials.Prepare and ImportDje.Prepare: the `round(4)` of numeric columns is not modelled.
- Persistence.MaterialParamsOf and Persistence.DjeParamsOf: the numeric columns are assumed present. A workbook without one of them raises a KeyError, and that is not modelled. What the database driver writes for a NaN bound to a text column is not modelled either: `Bound.NaN` marks such a value and nothing more.
- Persistence.Arbiters: an index is inferred when its columns are the target's and its predicate is absent or equal to the target's. PostgreSQL also accepts a target predicate that merely implies the index predicate; that proof is not modelled.
- Persistence.SeedStore.ImportMaterialsStarterPack and Persistence.SeedStore.ImportDjeStarterPack: the upsert is modelled with the conflict target the code evidently means, the global seed index. As written, `ON CONFLICT (seed_key)` names no unique index that PostgreSQL can infer, so the statement is refused for a non-empty batch (see "## Findings"). The counts returned are those of the code as written.
- **Importers.** Excel loading, pandas dtype inference and `execute_values` batching are left out; the batch is one statement per page of 1000 rows.
- **Number spellings.** `NumParse` covers Python `int()`/`Decimal()` and JavaScript `Number`/`parseInt`/`parseFloat` on plain decimal text with an optional sign and fraction. Exponents, hexadecimal, `Infinity`/`inf`/`nan` spellings and digit-group underscores are left out.
- **Text.** Whitespace, digits, letters and case folding are ASCII only. Unicode whitespace and Unicode case mapping are left out. Python's `str.strip()` and the regex `\s` also count the separators `\x1c`-`\x1f` as whitespace; `Text.IsSpace` does not.
- **DOM and browser machinery.** Element construction, Bootstrap modals, alerts, focus handling, event wiring, `fetch` calls, `setTimeout` debouncing and cross-tab storage events are left out. In detail:
  - `AdminSettings` does not model the autosave timer.
  - `Estimator` does not model the save scheduling or the description-fetch cache.
  - `Dje` does not model the restore of saved values that waits on the lookups.
  - `Summary` does not model the page reload after a reset.
  - The server lookups behind the DJE selects are function-typed parameters.
- **Storage order.** The order of `localStorage` keys is left to the browser. `Storage` fixes one admissible order: new keys go last, and removal keeps the order of the others.
- **Keys.** The `ee.fire` event and console messages of `Keys` are not modelled. The page URL's `eid` is a parameter.
- **Estimates routes not modelled.** These routes in `app/blueprints/estimates/routes.py` are not part of this model: the list JSON, clone, delete, the fast-export route and PDF rendering with WeasyPrint. The index CSV's query filters, dates and file name are also left out; only its quantised totals are modelled.
- **Assemblies service.** `list_assemblies`, `hard_delete_assembly`, `list_components` and `update_component` are query or delete plumbing and are not modelled.
- **Admin assembly routes.** The create, edit and delete routes are not modelled. The modelled routes are the featured filter, the add-component form and component activation.
- **CLI.** Command registration, `click.echo` output and password hashing of the CLI are not modelled.
- **Out of scope.** Models, migrations, the UI-only scripts, the auth blueprint, query-only endpoints, the rate limiter and observability are outside this model.

## Findings

| source | as written | input that shows it | evidently intended | confidence | as-written member | corrected member |
|---|---|---|---|---|---|---|
| app/services/persistence.py:82-91 | each row counts as inserted when its seed_key was not among the keys present before the batch | a batch whose two rows share a new seed_key: inserted is 2 but the table gains one row | inserted counts the keys the batch adds, which equals the table's growth | not executed | Persistence.DuplicateKeyOvercounts | Persistence.InsertedIsGrowth |
| app/services/persistence.py:132 | `ON CONFLICT (seed_key)` with no index predicate (also at line 230), where the only unique indexes on seed_key are partial: one on `seed_key` where `is_seed AND org_id IS NULL`, one on `(org_id, seed_key)` where `is_seed AND org_id IS NOT NULL` (migrations/versions/ce28d9cfd6bd_seed_add_provenance_cols_seed_.py:49-78) | any non-empty starter pack: PostgreSQL infers no arbiter index and refuses the statement | `ON CONFLICT (seed_key) WHERE is_seed = true AND org_id IS NULL`, which infers the global seed index | not executed | Persistence.AsWrittenTargetInfersNothing | Persistence.IntendedTargetInfersGlobalIndex |
| db/import_materials.py:147-154 | the text columns pass through `astype(str)` before NaN is replaced, so an empty cell becomes the text "nan" | two rows of one material type with empty descriptions: both get the key (type, "nan") and the upsert fails on the repeated key | an empty cell is stored as NULL | not executed | ImportMaterials.EmptyDescriptionsClash | ImportMaterials.TextCell |
| app/static/js/summary.js:5 | the markup for a 100% margin is 200.0 | margin 100 on a break-even cost of 1: the page prices 200 where the server prices 2 | 2.0, the server's guard-rail multiplier in app/services/calculations.py:56-57 | not executed | Summary.HundredPercentMarginAsWritten | Summary.MarkupMatchesServer |
| db/import_materials.py:97-118 | the first column selection keeps only the base columns and drops the four cost-code columns, and the loop after it re-adds them as None, so every prepared row has NULL cost codes and `DO UPDATE` overwrites stored codes with NULL | a row whose material cost code is "M-1" matching a stored row with code "M-1": after the import the stored code is NULL | the cost codes pass through, as the comment at line 120 says | not executed | ImportMaterials.CostCodesWiped | ImportMaterials.PrepareRow |
