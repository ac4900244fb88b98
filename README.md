# Badgify core, modelled in Dafny

Badgify is a Shopify app for designing product badges, assigning them to
products, and gating the feature behind a paid subscription that starts
with a three-day trial. This project models the logic under the app's UI
and proves properties of it:

- **Subscriptions** (`billing.dfy`, `subscription_guard.dfy`,
  `billing_route.dfy`). The subscription table is keyed by shop and each
  row is pending, active, cancelled or expired. The model covers the
  `BillingService` operations, the trial arithmetic and the expiry sweep.
  It also covers the route guard, the status summary, and the billing
  page's subscribe/cancel action and its panels.
- **Webhooks that write the table** (`app_uninstalled.dfy`,
  `shop_redact.dfy`). `app/uninstalled` cancels the shop's row.
  `shop/redact` deletes the subscription and session rows of the shop
  named in the payload.
- **Badges and their product assignments** (`badgify_route.dfy`). The
  badges page's action updates the badge and badge-assignment tables:
  create, update, delete, toggle, and a delete-then-insert replacement of
  a badge's assignments. The model also covers the loader's product
  records (with comma-separated tag parsing) and the "Quick Stats" counts.
- **The assignment dialog** (`product_assignment.dfy`). It models the
  product list filtered by search and tab, the toggle and select-all /
  deselect-all handlers, the unique type, vendor and tag lists, and
  `handleSave`, which turns the tab or rule into a list of product ids.
- **The badge list** (`badge_manager.dfy`). It models search and filters,
  pages of ten, the pager, the bulk activate/deactivate action and the
  delete confirmation.
- **The badge history** (`badge_history.dfy`). A newest-first list of at
  most twenty generated badges, mirrored into browser storage.
- **The shields.io generator** (`badge_generator.dfy`). The badge URL,
  its Markdown, and the name of the downloaded file.
- **Shared helpers.** `wrappers.dfy` (Option, Result, JavaScript
  truthiness of an optional string), `seqs.dfy` (order-preserving filter,
  `[...new Set(...)]`, toggling membership, `Array.prototype.slice`) and
  `strings.dfy` (substring test, `split` on one character, `trim` over the
  ECMAScript white-space and line-terminator set).

Conventions:

- Parts of the source that change state in place are classes with
  `modifies` frames: the tables, the stateful components and the
  route actions.
- Pure derivations are functions with lemmas beside them.
- Times are integer milliseconds and a day is 86 400 000 ms.
- Calls into code the model does not see are parameters of the members
  that use them: `toLowerCase`, `encodeURIComponent`, form encoding,
  `JSON.stringify`/`JSON.parse`, the decimal rendering of numbers, and
  generated ids.
- The outcome of a call to Shopify or the store is a parameter: the
  billing outcome, an insert that fails, and which delete throws.

## Model

| member | source | states |
|---|---|---|
| Billing.OneRowPerShop | app/utils/billing.server.ts:29-31 | in a table keyed by shop, two rows naming the same shop are the same row |
| Billing.WithStatus | app/utils/billing.server.ts:58-83 | the status is always set; the subscription id is replaced only when a non-empty one is supplied; the billing period becomes now to now + 30 days exactly when the status is active, otherwise it is kept; the trial end and all other fields are kept |
| Billing.TrialDaysRemaining | app/utils/billing.server.ts:120-136 | the result is positive iff the row is in its trial; inside the trial it is the ceiling of the time left in days: (days-1)·day < time left ≤ days·day; it is never negative |
| Billing.TrialDaysNonIncreasing | app/utils/billing.server.ts:120-136 | the days remaining never grow as `now` grows |
| Billing.Swept | app/utils/billing.server.ts:141-157 | the sweep keeps the set of shops; every pending row with a trial end strictly before now becomes expired with updatedAt = now; every other row is unchanged |
| Billing.SweepIdempotent | app/utils/billing.server.ts:141-157 | sweeping twice at the same time gives the same table as sweeping once |
| Billing.SweepThenLaterSweep | app/utils/billing.server.ts:141-157 | a sweep followed by a later sweep leaves every status as the later sweep alone would |
| Billing.SweepPreservesAuthorization | app/utils/billing.server.ts:141-157 | at the sweep's time the sweep changes no shop's verdict under the authorisation rule |
| Billing.TrialEndInstant | app/utils/billing.server.ts:109-157 | at the exact instant of the trial end, a pending row is not in trial, has 0 days left, is not swept and is not authorised, because both comparisons are strict |
| Billing.SubscriptionTable.CreateSubscription | app/utils/billing.server.ts:37-53 | a new shop gets a pending row with trialDays 3, trialEndsAt = now + 3 days, and no period dates or subscription id; an existing shop is refused with a unique violation and nothing changes |
| Billing.SubscriptionTable.UpdateSubscriptionStatus | app/utils/billing.server.ts:58-83 | an existing row is replaced by `WithStatus` and other shops are unchanged; a missing row is an error and nothing changes |
| Billing.SubscriptionTable.CancelSubscription | app/utils/billing.server.ts:88-96 | only the status (to cancelled) and updatedAt change; a missing row is an error with nothing changed |
| Billing.SubscriptionTable.CleanupExpiredSubscriptions | app/utils/billing.server.ts:141-157 | the table becomes `Swept(old table, now)` |
| Billing.SubscriptionTable.CancelAllForShop | app/routes/webhooks.app.uninstalled.tsx:21-27 | `updateMany` by shop: the shop's row, if any, gets status cancelled and updatedAt = now, and the count is 1 or 0; every other row is unchanged |
| Billing.SubscriptionTable.DeleteAllForShop | app/routes/webhooks.shop.redact.tsx:35-39 | `deleteMany` by shop removes exactly that shop's row and returns the number of rows removed |
| Billing.SubscriptionTable.DeleteEvery | app/routes/webhooks.shop.redact.tsx:35-39 | `deleteMany` with an absent condition empties the table and returns its former size |
| SubscriptionGuard.RequireSubscription | app/utils/subscription-guard.server.ts:18-42 | with no row it always redirects; every redirect goes to `redirectTo` or `/app/billing`; with requireActive and allowTrial in force (the defaults) it proceeds iff the row is active, or pending and strictly before its trial end |
| SubscriptionGuard.AnyRowPassesWithoutRequireActive | app/utils/subscription-guard.server.ts:32 | with requireActive false, the guard proceeds iff a row exists |
| SubscriptionGuard.NoTrialGrace | app/utils/subscription-guard.server.ts:34-41 | with allowTrial false, only an active row passes; a pending row is refused even inside its trial |
| SubscriptionGuard.CancelledOrExpiredDenied | app/utils/subscription-guard.server.ts:32-41 | cancelled and expired rows are always redirected while requireActive holds |
| SubscriptionGuard.CheckSubscriptionStatus | app/utils/subscription-guard.server.ts:49-72 | with no row: all flags false, 0 days and no subscription; otherwise isActive iff the status is active, isInTrial iff some trial day remains, and isInTrial implies now is before the trial end |
| BillingRoute.ResubscribeKeepsTrialEnd | app/routes/app.billing.tsx:39-45 | subscribing again keeps the row's trial end; only a shop with no row gets now + 3 days |
| BillingRoute.SubscribeEndsActive | app/routes/app.billing.tsx:47-91 | whatever the billing provider does, a subscribe leaves an active row whose billing period starts now and ends 30 days later, and the guard then lets the shop in |
| BillingRoute.OnFailureSameAsError | app/routes/app.billing.tsx:60-84 | the cancelled write in `onFailure` leaves no trace: the row ends exactly as when the provider throws |
| BillingRoute.Action | app/routes/app.billing.tsx:31-105 | subscribe writes the row `Subscribed` describes and redirects to /app, or replies with the trial message when the provider had no payment or threw; cancel cancels an existing row, and a missing row gives 500; any other action gives 400 with no write; other shops never change |
| BillingRoute.ViewMatchesGuard | app/routes/app.billing.tsx:111-113 | the subscribe form shows iff there is no row or it is cancelled/expired; the "trial expired" prompt shows iff pending and not in trial; the cancel button shows iff active; at most one shows; a way to subscribe is offered exactly when the guard redirects |
| AppUninstalled.Action | app/routes/webhooks.app.uninstalled.tsx:8-40 | without an admin context: empty reply, no change; on APP_UNINSTALLED with a session the shop's row is cancelled (status and updatedAt only); without a session, no change; another topic gives 404 with no change; other shops and the set of shops never change |
| AppUninstalled.UninstalledShopIsLockedOut | app/routes/webhooks.app.uninstalled.tsx:19-27 | after the uninstall cancels a shop's row, the guard redirects that shop under any options that require an active subscription |
| ShopRedact.RemainingSessions | app/routes/webhooks.shop.redact.tsx:42-46 | the sessions left are, in order, exactly those the condition `shop: shopDomain` does not match, with an absent domain matching every row |
| ShopRedact.MissingDomainRedactsAllShops | app/routes/webhooks.shop.redact.tsx:22-46 | a payload without `shop_domain` deletes the sessions of every shop |
| ShopRedact.RemainingSessionsIntended | app/routes/webhooks.shop.redact.tsx:35-46 | exactly the named shop's sessions go, the others stay in order, and a missing name deletes nothing |
| ShopRedact.NamedDomainAgrees | app/routes/webhooks.shop.redact.tsx:42-46 | when the payload names a shop, the code's deletion and the intended one leave the same rows |
| ShopRedact.SessionTable.DeleteMany | app/routes/webhooks.shop.redact.tsx:42-46 | the table becomes `RemainingSessions` and the count is the number of rows removed |
| ShopRedact.Action | app/routes/webhooks.shop.redact.tsx:9-92 | another topic or an undecodable body gives 500 and deletes nothing; a failing subscription delete gives 500 with nothing deleted; a failing session delete gives 500 after the subscription delete; on success the sessions are `RemainingSessions` and the reply counts the rows each table lost; after a successful redaction of a named shop, neither table holds a row of that shop, every other shop's subscription row is its old value, and every other shop's session is kept |
| BadgifyRoute.CreatedIsUpdatedBlank | app/routes/app.badgify.tsx:114-119 | the created badge is the blank row (session shop, default `isActive`, no rules, no design) with `badgeData` spread over it exactly as an update spreads it, so every key `badgeData` carries, `shop` included, wins; an update with the creating data then changes nothing |
| BadgifyRoute.Updated | app/routes/app.badgify.tsx:128-131 | keys present in `badgeData` overwrite the badge's, the others are kept, no other key appears, and id and rules are kept |
| BadgifyRoute.UpdateIdempotent | app/routes/app.badgify.tsx:128-131 | updating twice with the same data is updating once |
| BadgifyRoute.NewRowsRoundTrip | app/routes/app.badgify.tsx:170-177 | the inserted rows give back the posted product ids in order, all of them belong to the (shop, badge) pair, and all are assigned `manual` |
| BadgifyRoute.ReplacedRows | app/routes/app.badgify.tsx:163-178 | after the replacement the (shop, badge) rows list exactly the posted ids in order, each `manual`; the rows of every other badge and shop are the old ones in their old order |
| BadgifyRoute.ReplaceIdempotent | app/routes/app.badgify.tsx:163-178 | replacing twice with the same ids gives the same table as once |
| BadgifyRoute.ReplaceWithNothing | app/routes/app.badgify.tsx:169 | an empty id list leaves the badge with no rows and the table no larger |
| BadgifyRoute.BadgeStore.FindIsWhere | app/routes/app.badgify.tsx:129 | in the id-keyed table, `where: { id, shop }` finds a badge exactly when some stored badge has both that id and that shop, and finds that badge |
| BadgifyRoute.BadgeStore.Create | app/routes/app.badgify.tsx:114-119 | a fresh id gets `NewBadge`; an id already taken is refused with nothing changed |
| BadgifyRoute.BadgeStore.Update | app/routes/app.badgify.tsx:128-131 | a badge of the shop becomes `Updated`; a missing badge, or one of another shop, is not found and nothing changes |
| BadgifyRoute.BadgeStore.SetAssignmentRules | app/routes/app.badgify.tsx:181-184 | only the badge's assignment rules change, to the posted value or null |
| BadgifyRoute.BadgeStore.Delete | app/routes/app.badgify.tsx:139-141 | a badge of the shop is removed together with every assignment row pointing at it; otherwise nothing changes |
| BadgifyRoute.BadgeStore.DeleteAssignments | app/routes/app.badgify.tsx:164-166 | removes exactly the (shop, badge) rows, keeps the rest in order, and returns the number removed |
| BadgifyRoute.BadgeStore.CreateAssignments | app/routes/app.badgify.tsx:169-178 | the batch is appended whole; a failed batch changes nothing and is an error |
| BadgifyRoute.Action | app/routes/app.badgify.tsx:104-196 | each action's writes and reply as above, all scoped to the session shop; toggle sets isActive iff the form value is exactly "true"; assign_products replaces the badge's rows and stores the rules, or on a failed insert replies 500 with the badge's rows already cleared; a store error gives 500 after the writes before it; an unknown action gives 400 with no write |
| BadgifyRoute.TrimmedPieces | app/routes/app.badgify.tsx:90 | one tag per comma-separated piece, each the trimmed piece, comma-free and already trimmed |
| BadgifyRoute.ParseTags | app/routes/app.badgify.tsx:90 | a missing or empty tags string gives no tags; otherwise there are (commas + 1) tags, each the trimmed piece, so empty pieces are kept |
| BadgifyRoute.ParseTagsJoin | app/routes/app.badgify.tsx:90 | trimmed, comma-free tags joined with commas parse back to themselves |
| BadgifyRoute.ParseTagsKeepsBlankPieces | app/routes/app.badgify.tsx:90 | a piece of only white space gives an empty tag in its position |
| BadgifyRoute.LoadedVendors | app/routes/app.badgify.tsx:88 | over the loaded catalog, the dialog's vendor list holds exactly the vendors Shopify returned present and non-empty, and a missing vendor never adds a blank entry |
| BadgifyRoute.LoadedProductTypes | app/routes/app.badgify.tsx:89 | over the loaded catalog, the dialog's type list holds exactly the product types Shopify returned present and non-empty |
| BadgifyRoute.LoadedTags | app/routes/app.badgify.tsx:90 | over the loaded catalog, the dialog's tag list holds exactly the pieces `ParseTags` makes of the products' tag strings |
| BadgifyRoute.LoadedCatalogHasNoCollectionMatches | app/routes/app.badgify.tsx:91 | because every loaded product has an empty `collections` list, saving from the collection tab assigns no product whatever is selected |
| BadgifyRoute.ActiveBadgeCountAppend | app/routes/app.badgify.tsx:437 | each badge added to the list raises "Active Badges" by one exactly when it is active |
| BadgifyRoute.ActiveBadgeCountExtremes | app/routes/app.badgify.tsx:437 | "Active Badges" is 0 exactly when no badge is active, and the number of badges exactly when all are |
| BadgifyRoute.ProductsWithBadgesCountsRows | app/routes/app.badgify.tsx:443 | for badges with distinct ids, the sum of the `assignmentCount`s the loader attaches (app/routes/app.badgify.tsx:79-82) is the number of assignment rows pointing at one of them, so a product with two badges counts twice |
| ProductAssignment.IdsMembers | app/components/badgify/ProductAssignment.tsx:129 | an id is among the products' ids exactly when some product has it |
| ProductAssignment.IdsSubsequence | app/components/badgify/ProductAssignment.tsx:129 | the ids of an order-preserving selection of products are an order-preserving selection of the ids |
| ProductAssignment.MatchingIsCatalogFilter | app/components/badgify/ProductAssignment.tsx:166-192 | an id is saved iff some catalog product with that id passes the tab's test, and the result is a subsequence of the catalog's ids |
| ProductAssignment.MatchingNothing | app/components/badgify/ProductAssignment.tsx:166-177 | when no product passes the test, nothing is saved |
| ProductAssignment.FilteredProducts | app/components/badgify/ProductAssignment.tsx:101-118 | the listed products are an order-preserving subset of the catalog; each matches the search on title or handle; on tab 1 or 2 each shares a selected collection or tag; every product passing the test is listed |
| ProductAssignment.EmptySearchListsAll | app/components/badgify/ProductAssignment.tsx:101-117 | with an empty search, on any tab other than 1 and 2, every product is listed |
| ProductAssignment.UniqueProductTypes | app/components/badgify/ProductAssignment.tsx:96 | duplicate-free, with exactly the non-empty product types of the catalog |
| ProductAssignment.UniqueVendors | app/components/badgify/ProductAssignment.tsx:97 | duplicate-free, with exactly the non-empty vendors of the catalog |
| ProductAssignment.AllTags | app/components/badgify/ProductAssignment.tsx:98 | the flattened tag list holds exactly the tags of the catalog's products |
| ProductAssignment.UniqueTags | app/components/badgify/ProductAssignment.tsx:98 | duplicate-free, with exactly the tags of the catalog, the empty tag included |
| ProductAssignment.SelectAllAppends | app/components/badgify/ProductAssignment.tsx:128-134 | for a duplicate-free selection, select-all keeps the old selection first, in its order, and appends, after it, `Dedup` of the listed ids without those already selected, so the new ids come in the order of their first listing (Seqs.DedupKeepsFirstOccurrenceOrder) |
| ProductAssignment.AssignmentEditor.constructor | app/components/badgify/ProductAssignment.tsx:68-76 | the dialog opens on the manual tab with an empty manual rule, the current assignments selected, an empty search and no collections or tags |
| ProductAssignment.AssignmentEditor.ToggleProduct | app/components/badgify/ProductAssignment.tsx:120-126 | the id's membership flips and no other id's changes |
| ProductAssignment.AssignmentEditor.ToggleCollection | app/components/badgify/ProductAssignment.tsx:141-147 | the collection's membership flips and no other's changes |
| ProductAssignment.AssignmentEditor.ToggleTag | app/components/badgify/ProductAssignment.tsx:149-155 | the tag's membership flips and no other's changes |
| ProductAssignment.AssignmentEditor.SelectAll | app/components/badgify/ProductAssignment.tsx:128-134 | the new selection is duplicate-free, keeps every old selection, contains every listed product's id, and holds nothing else |
| ProductAssignment.AssignmentEditor.DeselectAll | app/components/badgify/ProductAssignment.tsx:136-139 | exactly the listed ids are removed; the rest stay in order |
| ProductAssignment.AssignmentEditor.SetRuleType | app/components/badgify/ProductAssignment.tsx:368-372 | a new rule type starts with no criteria |
| ProductAssignment.AssignmentEditor.SetCriterion | app/components/badgify/ProductAssignment.tsx:384-396 | a checked value is appended; an unchecked one is removed wherever it was; the rule type is kept |
| ProductAssignment.AssignmentEditor.HandleSave | app/components/badgify/ProductAssignment.tsx:157-201 | manual: the selection, with the same list as criteria; collection and tag: an id is saved iff its product shares a selected collection or tag, in catalog order, and nothing when none is selected; automatic: exact type or vendor membership in the criteria, nothing for another rule type, and the rule returned unchanged; every resolved id is a catalog id; any other tab: nothing, with an empty manual rule |
| Seqs.Toggled | app/components/badgify/ProductAssignment.tsx:120-126 | the element's membership flips and every other element's is kept |
| Seqs.ToggleTwiceRestores | app/components/badgify/ProductAssignment.tsx:120-126 | toggling an absent element twice restores the list |
| Seqs.ToggledNoDuplicates | app/components/badgify/ProductAssignment.tsx:120-126 | toggling keeps a duplicate-free list duplicate-free |
| Seqs.Dedup | app/components/badgify/ProductAssignment.tsx:131 | `[...new Set(s)]` is duplicate-free and has the same elements as `s` |
| Seqs.DedupPrefix | app/components/badgify/ProductAssignment.tsx:131 | de-duplicating a prefix of `s` gives a prefix of `Dedup(s)`: later elements never displace earlier ones |
| Seqs.DedupKeepsFirstOccurrenceOrder | app/components/badgify/ProductAssignment.tsx:131 | the first occurrence of an element is placed right after the distinct elements before it, so first occurrences keep their order in the result, as a `Set` iterates in insertion order |
| Strings.Split | app/routes/app.badgify.tsx:90 | `split(',')` gives one more piece than there are commas, and no piece holds a comma |
| Strings.JoinSplit | app/routes/app.badgify.tsx:90 | joining the pieces with the separator gives back the string |
| Strings.Trim | app/routes/app.badgify.tsx:90 | the result is a stretch of the input with only white space cut from both ends, and it neither starts nor ends with white space |
| Strings.TrimIdempotent | app/routes/app.badgify.tsx:90 | trimming twice is trimming once |
| Strings.TrimAllWhitespace | app/routes/app.badgify.tsx:90 | a string of only white space trims to the empty string |
| BadgeManager.FilteredBadges | app/components/badgify/BadgeManager.tsx:85-94 | the shown badges are an order-preserving subset, and a badge is shown iff it matches the search on name or text, the status filter and the shape filter |
| BadgeManager.NoFilterListsAll | app/components/badgify/BadgeManager.tsx:86-91 | an empty search with both filters at `all` shows every badge |
| BadgeManager.TotalPages | app/components/badgify/BadgeManager.tsx:97 | the fewest pages of ten that hold n badges; 0 iff there are none |
| BadgeManager.PageBounds | app/components/badgify/BadgeManager.tsx:98-99 | a page holds at most ten badges, is the stretch starting at (page-1)·10, is empty past the last page and non-empty up to it |
| BadgeManager.FirstPagesArePrefix | app/components/badgify/BadgeManager.tsx:97-99 | pages 1 to k together are the first 10·k badges |
| BadgeManager.PagesCoverList | app/components/badgify/BadgeManager.tsx:97-99 | pages 1 to totalPages concatenate back to the filtered list |
| BadgeManager.PagerMatchesPages | app/components/badgify/BadgeManager.tsx:316-322 | the pager (`totalPages > 1`, `currentPage > 1`, `currentPage < totalPages`) is shown exactly when page 2 has badges, "Next" is enabled exactly when the following page has badges, and on an existing page "Previous" exactly when a page with badges precedes it |
| BadgeManager.BadgeList.NextPage | app/components/badgify/BadgeManager.tsx:321-322 | moving on from a page with a next one lands on an existing, non-empty page |
| BadgeManager.BadgeList.PreviousPage | app/components/badgify/BadgeManager.tsx:319-320 | moving back never goes below page 1 and keeps the page in range |
| BadgeManager.BadgeList.BulkAction | app/components/badgify/BadgeManager.tsx:101-114 | activate/deactivate make one toggle call per selected id, in selection order, with true/false; delete, other actions, or a missing callback make none; the selection is always cleared |
| BadgeManager.BadgeList.RequestDelete | app/components/badgify/BadgeManager.tsx:207-209 | the badge is remembered and the modal opens |
| BadgeManager.BadgeList.ConfirmDelete | app/components/badgify/BadgeManager.tsx:116-122 | one delete call with the remembered id when there is one and a callback; then the modal closes and the id is forgotten |
| BadgeManager.BadgeList.ChangeFilters | app/components/badgify/BadgeManager.tsx:281-304 | a filter change that also returns to page 1 always shows an existing page, the first ten filtered badges |
| BadgeManager.StrandedAfterNarrowing | app/components/badgify/BadgeManager.tsx:298-304 | filter setters leave the page unchanged, so with at most ten badges left on page 2 or later the table is empty and the pager hidden |
| BadgeManager.SampleStranded | app/components/badgify/BadgeManager.tsx:281 | on page 2 of eleven badges, choosing `inactive` leaves one badge but an empty page 2 and no pager |
| BadgeHistory.Saved | app/components/badgify/BadgeHistory.tsx:44 | the new item first, then the first nineteen old items in order; length min(old + 1, 20) |
| BadgeHistory.SavedAllIsRecentFirst | app/components/badgify/BadgeHistory.tsx:35-47 | after one or more saves the list is the saved items newest first, then the old list, cut to twenty |
| BadgeHistory.Deleted | app/components/badgify/BadgeHistory.tsx:50 | every item with the id goes; the rest keep their order |
| BadgeHistory.DeleteAbsent | app/components/badgify/BadgeHistory.tsx:50 | deleting an id no item has changes nothing |
| BadgeHistory.Reloaded | app/components/badgify/BadgeHistory.tsx:19-33 | a missing key reads as no history; a stored value that parses reads as the parsed list |
| BadgeHistory.History.Load | app/components/badgify/BadgeHistory.tsx:19-33 | a stored, non-empty value that parses replaces the list; otherwise the list is left as it was (empty after mounting) |
| BadgeHistory.History.SaveBadge | app/components/badgify/BadgeHistory.tsx:35-47 | the list becomes `Saved`, the stored value is its serialisation, and when serialisation round-trips, reloading gives the list back |
| BadgeHistory.History.DeleteBadge | app/components/badgify/BadgeHistory.tsx:49-53 | the list becomes `Deleted`, the same list is stored, and it reloads as itself |
| BadgeHistory.History.ClearHistory | app/components/badgify/BadgeHistory.tsx:55-58 | the list is empty, the key is removed, and reloading gives the empty list |
| BadgeGenerator.Params | app/components/badgify/BadgeGenerator.tsx:69-73 | style iff not flat, logo iff non-empty, logoColor iff not white, labelColor iff not grey; nothing else, in that order |
| BadgeGenerator.Serialize | app/components/badgify/BadgeGenerator.tsx:75 | the query string is empty iff no parameter was added |
| BadgeGenerator.GenerateBadgeUrl | app/components/badgify/BadgeGenerator.tsx:54-80 | the URL built step by step equals `BadgeUrl` |
| BadgeGenerator.UrlShape | app/components/badgify/BadgeGenerator.tsx:55-77 | the URL starts with the base, has `-color` right after the path, and gets `?` and the query iff some parameter was added |
| BadgeGenerator.DefaultUrl | app/components/badgify/BadgeGenerator.tsx:19-27 | the initial form gives exactly the base + `/badge-blue`, with no query |
| BadgeGenerator.Markdown | app/components/badgify/BadgeGenerator.tsx:84 | `![Badge](` + url + `)` |
| BadgeGenerator.MarkdownHoldsUrl | app/components/badgify/BadgeGenerator.tsx:84 | the URL can be read back out of the Markdown |
| BadgeGenerator.DownloadName | app/components/badgify/BadgeGenerator.tsx:111 | `badge-` + text + `.svg` |
| BadgeGenerator.DownloadNameHoldsText | app/components/badgify/BadgeGenerator.tsx:111 | the badge text can be read back out of the file name |
| BadgeGenerator.Generator.GenerateBadge | app/components/badgify/BadgeGenerator.tsx:82-92 | stores the URL and its Markdown, and passes both to the callback when one is present |
| BadgeGenerator.Generator.DownloadBadge | app/components/badgify/BadgeGenerator.tsx:102-119 | nothing before a badge was generated or when the fetch fails; otherwise the file is saved as `DownloadName(text)` |

## Left out

- Prisma, Shopify authentication, `billing.require` and the REST product and collection fetch are not modelled. The store is a map or sequence of rows, and the billing provider is an outcome parameter.
- Authentication is not modelled. Each handler starts from the session shop, the webhook topic and the decoded payload.
- Browser and runtime services are outside the model: `localStorage` (a string map), `navigator.clipboard`, `fetch` (only its success is a parameter), `Intl.DateTimeFormat` and `console` logging.
- Functions the model does not re-specify are parameters. These are `toLowerCase`, `encodeURIComponent`, `URLSearchParams` encoding, `JSON.stringify`/`JSON.parse`, number-to-string, and id generation (`Date.now().toString()`, the store's badge ids).
- Billing.TrialDaysRemaining: times are integer milliseconds and `setDate(+3)`/`setDate(+30)` add a fixed 86 400 000 ms per day. The model does not capture daylight-saving shifts in local calendar days.
- Billing: the price 9.99 is a constant (999 cents); floating point is not modelled.
- Concurrency and atomicity are not modelled. Each request runs alone at one instant `now`. The guard's separate reads, and the non-atomic delete-then-insert of assignments, are sequential.
- BillingRoute.Action: the `402` response thrown by `onFailure` is not modelled as a value, because the inner `catch` always replaces it.
- The behaviour on billing failure follows the code: the row ends active, not cancelled.
- BadgifyRoute.Badge: the badge's design attributes are an opaque key-value map. Ordering by `createdAt`, the templates query, the collections mapping and product images are not modelled. An `id` or `assignmentRules` key inside `badgeData` is not modelled: a created badge always starts with no rules, and an update keeps them.
- BadgifyRoute.DEFAULT_ACTIVE: the schema's default for `isActive` is not part of this model and is taken to be true.
- BadgifyRoute.BadgeStore.Delete takes the badge-assignment relation to cascade on delete, since the schema is not part of this model. `createMany` is taken to insert its batch whole or not at all, and foreign keys are not checked.
- BadgifyRoute.Action: `JSON.parse` of `badgeData` and `productIds` is taken as already decoded, with `None` for a body that does not decode. A decoded `productIds` that is not an array is not modelled.
- `handleSaveBadge` and `handleSaveAssignment` in app/routes/app.badgify.tsx build form data that is never submitted, so they are not modelled. The page's other React state and JSX rendering are not modelled either.
- ProductAssignment: `productTypeFilter` and `vendorFilter` are declared but never read, so they are not modelled. The `conditions` field of a rule and the table rendering are not modelled either.
- ProductAssignment.AssignmentEditor.SelectTab and SetSearchQuery are plain field writes; they carry no property beyond the new value.
- BadgeManager: the popover, edit, duplicate and analytics callbacks only forward an id, so they are not modelled. The bulk `delete` branch does nothing in the source and nothing in the model. The SetSelection, SetSearchQuery, SetStatusFilter, SetShapeFilter, ClearAll and CancelDelete methods are plain field writes.
- BadgeHistory.History.Load: the conversion of `createdAt` back to a `Date` is part of the `parse` parameter. The reuse button and date formatting are not modelled.
- BadgeGenerator: shields.io reads `-` and `_` in a path segment as separators. The code escapes them only through `encodeURIComponent`, which leaves them as they are. This is not modelled, because the encoder is a parameter. Canvas and clipboard are not modelled.
- ShopRedact.Action follows the code as written: a payload without `shop_domain` deletes every row (see Findings). The compliance record and `processed_at` are only logged or returned as timestamps, so they are not modelled. `prisma.$disconnect` is not modelled.
- AppUninstalled.Action: the thrown `Response` objects are the reply values `Empty` (200) and `NotFound` (404).
- BadgeDesigner, BadgePresets, the dashboard `app._index`, `root`, the favicon route and the two `customers/*` webhooks are not part of this model. They are presentation or logging only.

## Findings

| source | as written | input that shows it | evidently intended | confidence | as-written member | corrected member |
|---|---|---|---|---|---|---|
| app/components/badgify/BadgeManager.tsx:281-304 | the status, shape and search setters change a filter but leave `currentPage` as it was | eleven badges (one inactive), user on page 2, sets the status filter to `inactive`: one badge matches, page 2 is empty, and `totalPages` is 1, so the pager with its "previous" button is hidden | a filter change returns to page 1, so the page shown always exists | medium, not executed | BadgeManager.StrandedAfterNarrowing, BadgeManager.SampleStranded | BadgeManager.BadgeList.ChangeFilters |
| app/routes/webhooks.shop.redact.tsx:22-46 | `where: { shop: shopDomain }` with `shopDomain` taken unchecked from the payload; Prisma drops a condition whose value is `undefined` | a `shop/redact` payload without `shop_domain`: both `deleteMany` calls match every row, deleting the subscriptions and sessions of all shops | delete only the named shop's rows, and nothing when no shop is named | low (the platform normally sends the field), not executed | ShopRedact.MissingDomainRedactsAllShops, ShopRedact.RemainingSessions | ShopRedact.RemainingSessionsIntended, ShopRedact.NamedDomainAgrees |
