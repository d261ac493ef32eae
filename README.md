# Consent hub: a Dafny model of the consent store and its pages, with proofs of what they promise

The repository is an open-banking consent dashboard. A user grants third-party
providers (TPPs) access to their bank accounts and can revoke or renew those
grants. A bank operator sees metrics over all grants.

This project models the part with real logic, one Dafny module per source file:

- `Store` (lib/store/consent-store.ts): the consent store. The class
  `ConsentStore` holds the consents and the prepend-only activity log. Its
  methods `RevokeConsent`, `RenewConsent`, `AddConsent` and `AddActivityLog`
  replace those fields. Each method's new state is stated through a pure
  function such as `UpdateWhere`. The selectors are functions over the two
  sequences.
- `Clock` (lib/utils/index.ts): `daysUntil`, `daysAgo` and the bucketing of
  `formatRelativeTime`, as integer arithmetic on millisecond differences.
- `Types` (lib/types/index.ts): the record and enumeration types, and the
  `PERMISSION_DETAILS` table.
- `MockTpps`, `MockAccounts`, `MockConsents` (lib/data/): the catalogs and
  their lookups, IBAN grouping and masking, and the seed consents and log
  entries.
- `BankDashboard` (app/bank/page.tsx): the per-provider metrics table, the
  "today" counters, the chart data and the alert day count.
- `UserPortal` (app/user/page.tsx): the split into connected and inactive
  apps, the card predicates and badges, and the class `ConnectedAppCard` with
  its revoke dialog and its revoke and renew handlers.
- `ConnectWizard` (app/user/connect/page.tsx): the five-step connection
  wizard as the class `Wizard`, with its provider search, presets, toggles and
  final authorization.
- `Collections`: `Option`, plus `Filter` and `Find` (JavaScript's
  `Array.prototype.filter` and `find`) with their lemmas.

## Conventions

- Timestamps are integer milliseconds.
- The current time is a parameter `now`. A day is 86,400,000 ms, so "+90 days"
  is `Store.RenewalMs`.
- The ids the source builds from `Date.now()` are parameters supplied by the
  caller.
- "Is the same calendar day" (`toDateString` equality) is a parameter
  `dayOf: Time -> int`.

## What is proved

- Every store action keeps the invariant "revoked ⇒ revocation time present"
  (`RevokedStamped`, which is `ConsentStore.Valid`).
- The converse, "revocation time present ⇒ revoked", holds for the seed data
  but is not kept. `renewConsent` sets `status` to active without clearing
  `revokedAt` (lib/store/consent-store.ts:69-78). `Store.RenewRevokedKeepsStamp`
  exhibits this on the seed consent consent-006. The model keeps the source's
  behaviour. The user page offers renewal only on an active card, so no user
  action reaches that state.
- The wizard's guards ensure `addConsent` always receives a non-empty account
  list and a permission list containing `ReadAccountsBasic`. The class
  invariant `Wizard.Valid` carries this, and `Wizard.HandleAuthenticate`
  states it.

## Model

| member | source | states |
|---|---|---|
| Collections.Filter | lib/store/consent-store.ts:142-144 | `Array.prototype.filter`: keeps, in order, exactly the elements satisfying the predicate; never longer than the input |
| Collections.FilterConcat | lib/store/consent-store.ts:142-144 | filtering a concatenation is the concatenation of the filters |
| Collections.FilterEmpty | lib/store/consent-store.ts:171-173 | a filter is empty exactly when no element satisfies the predicate |
| Collections.Find | lib/store/consent-store.ts:138-140 | `Array.prototype.find`: nothing exactly when no element satisfies the predicate, otherwise the first element that does |
| Collections.FindSingle | lib/data/mock-tpps.ts:96-98 | when at most one element satisfies the predicate, `find` returns that one |
| Collections.FilterKeepsDistinct | lib/data/mock-accounts.ts:36-38 | a filter of a duplicate-free sequence is duplicate-free |
| Collections.FilterKeepsOrder | app/bank/page.tsx:102-107 | a filter keeps the relative order of what it keeps: a key increasing along the input increases along the result |
| Types.AllPermissions | lib/types/index.ts:27-38 | `Permission` has exactly eleven distinct values |
| Types.AllStatuses | lib/types/index.ts:50-56 | `ConsentStatus` has exactly six distinct values, so a count per status has six entries |
| Types.AllLogActions | lib/types/index.ts:79 | the log `action` has exactly six distinct values |
| Types.PermissionDetails | lib/types/index.ts:106-184 | the table is total; each entry's code is its key; risk is high ⇔ category is payment ⇔ the permission is InitiatePayments; the three account permissions are account/low; every other read permission is transaction/medium |
| Clock.DaysUntil | lib/utils/index.ts:44-49 | the result `d` is the ceiling of the difference in days: `(d-1)·day < target-now ≤ d·day` |
| Clock.DaysAgo | lib/utils/index.ts:51-56 | the result `d` is the floor of the elapsed days: `d·day ≤ now-t < (d+1)·day` |
| Clock.DaysUntilIsMinusDaysAgo | lib/utils/index.ts:44-56 | `daysUntil(t) = -daysAgo(t)` for every `t` and `now` |
| Clock.DaysUntilExamples | lib/utils/index.ts:44-49 | 2.5 days ahead gives 3; any target less than a day in the past gives 0 |
| Clock.Bucketize | lib/utils/index.ts:32-41 | exactly one bucket of the if-chain applies, chosen by the elapsed time, and the count it carries is the floored quotient for its unit, within 1..59, 1..23 or 1..6 |
| Clock.DecimalRoundTrip | lib/utils/index.ts:38-40 | the decimal rendering of a count reads back as that count |
| Clock.NatToDecimal | lib/utils/index.ts:38-40 | the `${n}` rendering: at least one digit, only digits, no leading zero; `DecimalRoundTrip` shows it reads back as `n` |
| Clock.AgoPhrase | lib/utils/index.ts:38-40 | the template `${n} ${unit}${n === 1 ? '' : 's'} ago`: longer than the unit by more than five characters and ending in " ago" |
| Clock.AgoPhraseShape | lib/utils/index.ts:38-40 | "N unit(s) ago" starts with N's digits and a space, and ends in "s ago" exactly when N ≠ 1 |
| Clock.FormatRelativeTime | lib/utils/index.ts:29-42 | "Just now" exactly when under a minute has elapsed; the formatted date of `t` exactly when seven or more days have |
| Clock.FutureIsJustNow | lib/utils/index.ts:37 | every future instant reads "Just now" |
| Clock.RelativePhraseCounts | lib/utils/index.ts:38-40 | within the minute, hour and day ranges, the phrase carries the floored count of that unit |
| MockTpps.CatalogShape | lib/data/mock-tpps.ts:5-94 | the catalog has eight providers with pairwise distinct ids |
| MockTpps.Catalog | lib/data/mock-tpps.ts:5-94 | `mockTPPs`, the eight providers; `CatalogShape` states their count and distinct ids |
| MockTpps.FindTpp | lib/data/mock-tpps.ts:96-98 | the lookup by id over any provider list: an entry with that id, or nothing exactly when none has it; with distinct ids, the one entry with that id |
| MockTpps.GetTppById | lib/data/mock-tpps.ts:96-98 | `getTPPById`: a catalog entry with that id, or nothing exactly when none has it |
| MockTpps.GetTppByIdUnique | lib/data/mock-tpps.ts:96-98 | the returned entry is the only catalog entry with that id |
| MockTpps.CategoriesPartition | lib/data/mock-tpps.ts:100-102 | `getTPPsByCategory`'s filter keeps a provider exactly for its own category, and the five category lists together have as many entries as the list |
| MockTpps.OfCategory | lib/data/mock-tpps.ts:100-102 | the category filter over any provider list: exactly the providers of that category, never more than the list |
| MockTpps.GetTppsByCategory | lib/data/mock-tpps.ts:100-102 | `getTPPsByCategory`: exactly the catalog providers of that category |
| MockAccounts.Catalog | lib/data/mock-accounts.ts:5-30 | three accounts with pairwise distinct ids |
| MockAccounts.GetAccountById | lib/data/mock-accounts.ts:32-34 | the account with that id, or nothing exactly when none has it |
| MockAccounts.GetAccountsByIds | lib/data/mock-accounts.ts:36-38 | exactly the catalog accounts whose id is listed, each once |
| MockAccounts.AccountsByIdsIgnoresRepeatsAndUnknown | lib/data/mock-accounts.ts:36-38 | adding a repeated or unknown id changes nothing |
| MockAccounts.SpaceEveryFour | lib/data/mock-accounts.ts:41 | the `replace(/(.{4})/g, '$1 ')`: never shorter than its input, and empty exactly when the input is |
| MockAccounts.SpaceEveryFourOnlyAddsSpaces | lib/data/mock-accounts.ts:41 | for every input, the replacement only inserts spaces: deleting the spaces of result and input gives the same string |
| MockAccounts.SpaceEveryFourShort | lib/data/mock-accounts.ts:41 | below four characters the replacement changes nothing |
| MockAccounts.SpaceEveryFourIsGrouped | lib/data/mock-accounts.ts:41 | on whitespace-free input the replacement is the grouping plus a trailing space when the length is a positive multiple of four |
| MockAccounts.GroupedLayout | lib/data/mock-accounts.ts:41 | the grouping has a space exactly at every fifth position and the input's first and last characters at its ends |
| MockAccounts.GroupedRemoveSpaces | lib/data/mock-accounts.ts:41 | deleting the spaces from the grouping gives the input back |
| MockAccounts.TrimStart | lib/data/mock-accounts.ts:41 | the start of `trim`: a suffix of the input that does not start with whitespace, and everything removed is whitespace |
| MockAccounts.TrimEnd | lib/data/mock-accounts.ts:41 | the end of `trim`: a prefix of the input that does not end with whitespace, and everything removed is whitespace |
| MockAccounts.FormatIban | lib/data/mock-accounts.ts:40-42 | `formatIBAN`, for every input: the result neither starts nor ends with whitespace and is no longer than the replacement |
| MockAccounts.FormatIbanIsGrouped | lib/data/mock-accounts.ts:40-42 | on a non-empty input without whitespace, `formatIBAN` is exactly the grouping into blocks of four |
| MockAccounts.FormatIbanShape | lib/data/mock-accounts.ts:40-42 | `formatIBAN` on a non-empty whitespace-free input: deleting its spaces gives the input back, and it is groups of four separated by single spaces with no space at either end |
| MockAccounts.MaskIban | lib/data/mock-accounts.ts:44-46 | from four characters on: the first four, "...", the last four, eleven in all (below eight the head and tail overlap); below four, the whole input twice around "..." |
| MockConsents.DaysAgo | lib/data/mock-consents.ts:8-12 | lies exactly `days` days before the load time |
| MockConsents.DaysFromNow | lib/data/mock-consents.ts:14-18 | lies exactly `days` days after the load time |
| MockConsents.HoursAgo | lib/data/mock-consents.ts:20-24 | lies exactly `hours` hours before the load time |
| MockConsents.InitialConsents | lib/data/mock-consents.ts:26-148 | eight seed consents |
| MockConsents.SeedConsentShapes | lib/data/mock-consents.ts:26-148 | each seed consent is revoked exactly when it has a revocation time, has permissions and accounts, and has createdAt = authorizedAt < expiresAt |
| MockConsents.SeedConsentIds | lib/data/mock-consents.ts:122-128 | only consent-006 is revoked, and the seed ids are pairwise distinct |
| MockConsents.InitialActivityLogs | lib/data/mock-consents.ts:150-223 | eight seed log entries |
| MockConsents.SeedLogShapes | lib/data/mock-consents.ts:150-223 | the log ids are pairwise distinct, and an entry has an endpoint exactly when it records an access |
| MockConsents.SeedLogsReferenceSeedConsents | lib/data/mock-consents.ts:150-223 | every seed log names a seed consent and copies that consent's provider |
| MockConsents.FunnelData | lib/data/mock-consents.ts:226-232 | the funnel counts do not increase from stage to stage |
| Store.Revoke | lib/store/consent-store.ts:41-46 | the consent becomes revoked at `now`; every other field is unchanged |
| Store.Renew | lib/store/consent-store.ts:69-78 | the consent becomes active, expiring 90 days after `now`; every other field, `revokedAt` included, is unchanged |
| Store.UpdateWhere | lib/store/consent-store.ts:41-46 | `consents.map`: the same length and order; entries with the id are updated, all others are unchanged |
| Store.NewConsent | lib/store/consent-store.ts:98-111 | the added consent: active, exactly the given permissions and accounts, created and authorized at `now`, expiring 90 days later, never revoked or accessed; renewing it at once changes nothing |
| Store.WithId | lib/store/consent-store.ts:132 | `{ ...log, id }`: the entry has the new id, and dropping the id gives the draft back |
| Store.GetConsentById | lib/store/consent-store.ts:138-140 | the first consent with that id, or nothing exactly when none has it |
| Store.GetConsentsByStatus | lib/store/consent-store.ts:142-144 | exactly the consents with that status |
| Store.GetConsentsByTpp | lib/store/consent-store.ts:146-148 | exactly the consents of that provider |
| Store.GetActiveConsents | lib/store/consent-store.ts:150-152 | exactly the active consents; the user page's connected apps (app/user/page.tsx:239) are the same filter |
| Store.GetExpiringSoon | lib/store/consent-store.ts:154-165 | exactly the active consents with `now < expiresAt ≤ now + days` |
| Store.GetActivityLogsForConsent | lib/store/consent-store.ts:167-169 | exactly the log entries about that consent |
| Store.GetTotalActive | lib/store/consent-store.ts:171-173 | at most the number of consents, and zero exactly when none is active |
| Store.GetTotalExpiringSoon | lib/store/consent-store.ts:175-177 | never more than the active total |
| Store.GetConsentCountByStatus | lib/store/consent-store.ts:179-189 | each count is the size of that status's list; the six counts sum to the number of consents; the active count equals `getTotalActive` and the size of `getActiveConsents` |
| Store.StatusCountsSum | lib/store/consent-store.ts:179-189 | the six status filters together have as many entries as the consents |
| Store.Ids | lib/store/consent-store.ts:41-46 | the ids of the consents, in order |
| Store.SeedIsValid | lib/data/mock-consents.ts:26-148 | the seed state satisfies both directions of "revoked ⇔ revocation time present" |
| Store.UpdateKeepsRevokedStamped | lib/store/consent-store.ts:35-91 | revoking or renewing keeps "revoked ⇒ revocation time present" |
| Store.UpdateKeepsOrderAndCounters | lib/store/consent-store.ts:41-46 | revoking or renewing keeps the ids, their order and every access count |
| Store.RevokeTwiceRestamps | lib/store/consent-store.ts:35-46 | revoking twice is revoking once at the later time: the status is not checked, so the time is re-stamped |
| Store.RenewRevokedKeepsStamp | lib/store/consent-store.ts:69-78 | renewing the revoked seed consent consent-006 gives an active consent that still has a revocation time, so "revocation time present ⇒ revoked" is broken |
| Store.RenewedLeavesExpiringWindow | lib/store/consent-store.ts:69-78 | a renewed consent is active and outside the seven-day expiry window |
| Store.PrependedLogComesFirst | lib/store/consent-store.ts:129-136 | after prepending a log entry, the consent's log list is that entry, if it is about the consent, followed by the old list |
| Store.PrependedConsentCounts | lib/store/consent-store.ts:114 | a prepended consent is found by its id and raises exactly its own status's count by one |
| Store.SeedExpiringSoon | lib/data/mock-consents.ts:26-148 | at the seed time, the seven-day window holds exactly consent-005 and then consent-008 |
| Store.ConsentStore.constructor | lib/store/consent-store.ts:31-33 | the store starts with the seed data, which satisfies both directions of the revocation invariant |
| Store.ConsentStore.RevokeConsent | lib/store/consent-store.ts:35-59 | an unknown id changes nothing; otherwise the consents become `UpdateWhere(.., RevokeAt(now))` and one 'revoked' entry with the id, the consent's provider and `now` is put in front of the old log; the invariant is kept |
| Store.ConsentStore.RenewConsent | lib/store/consent-store.ts:61-91 | an unknown id changes nothing; otherwise the consents become `UpdateWhere(.., RenewAt(now))` and one 'renewed' entry is put in front of the old log; the invariant is kept |
| Store.ConsentStore.AddConsent | lib/store/consent-store.ts:93-127 | the new consent goes in front of the old ones, unvalidated, and one 'authorized' entry goes in front of the old log; the invariant is kept |
| Store.ConsentStore.AddActivityLog | lib/store/consent-store.ts:129-136 | the entry, with its new id, goes in front of the old log; the consents are unchanged |
| BankDashboard.RevocationRate | app/bank/page.tsx:123 | the percentage of revoked consents lies within 0..100, and is 0 for a provider without consents |
| BankDashboard.Risk | app/bank/page.tsx:130 | the risk score: anything but low needs a revocation, and a provider whose every consent is revoked is high; `RiskMatchesRate` ties it to the thresholds on the rate |
| BankDashboard.RiskMatchesRate | app/bank/page.tsx:123-130 | the risk computed by cross-multiplication is high ⇔ rate > 10, medium ⇔ 5 < rate ≤ 10, low ⇔ rate ≤ 5 |
| BankDashboard.RateAboveIff | app/bank/page.tsx:123-130 | the rate exceeds p exactly when `100·revoked > p·total` |
| BankDashboard.RiskBoundaries | app/bank/page.tsx:130 | exactly 10% is medium, exactly 5% is low, just above 10% is high |
| BankDashboard.LatestActivity | app/bank/page.tsx:131-137 | the `reduce`: at least the start value, at least every activity time, and equal to the start or to one of them |
| BankDashboard.ActivityTime | app/bank/page.tsx:133-134 | the last access when there is one, otherwise the creation time, and never before the creation time when the consent was not used before it was created |
| BankDashboard.LastActivityIsLatest | app/bank/page.tsx:131-137 | when no access precedes its consent's creation, the last activity is the largest activity time of the provider's consents |
| BankDashboard.MetricFor | app/bank/page.tsx:119-139 | a provider's row: its consent total; its active and revoked counts, the sizes of its active and its revoked consents; the risk of its rate; a last activity exactly when it has consents, at least every activity time of them, equal to one of their activity or creation times, and, when no consent was used before it was created, equal to one of their activity times, hence their latest |
| BankDashboard.MetricsFor | app/bank/page.tsx:119 | `mockTPPs.map`: one row per provider, in order |
| BankDashboard.Insert | app/bank/page.tsx:140 | inserting a row adds exactly that row |
| BankDashboard.SortByActive | app/bank/page.tsx:140 | the sort is a permutation |
| BankDashboard.InsertSorted | app/bank/page.tsx:140 | inserting keeps the rows ordered |
| BankDashboard.SortSorted | app/bank/page.tsx:140 | the result is non-increasing in active consents |
| BankDashboard.InsertStable | app/bank/page.tsx:140 | an inserted row goes before the rows with its own count |
| BankDashboard.SortStable | app/bank/page.tsx:140 | the sort is stable: rows with equal counts keep their order |
| BankDashboard.TableOver | app/bank/page.tsx:119-140 | the table is a permutation of the rows with at least one consent, each for a listed provider |
| BankDashboard.TppMetrics | app/bank/page.tsx:119-140 | `tppMetrics`: every row is for a catalog provider with at least one consent |
| BankDashboard.TableOrder | app/bank/page.tsx:140 | the table is non-increasing in active consents, and ties keep catalog order |
| BankDashboard.TableRows | app/bank/page.tsx:119-140 | a listed provider has a row exactly when some consent names it |
| BankDashboard.MetricIgnoresOthers | app/bank/page.tsx:120 | a provider's row ignores consents of other providers |
| BankDashboard.UnknownProviderIgnored | app/bank/page.tsx:119-140 | a consent whose provider is not listed changes no row |
| BankDashboard.RevokedToday | app/bank/page.tsx:89-94 | counts revoked consents revoked on today's day, so never more than the revoked count |
| BankDashboard.NewToday | app/bank/page.tsx:95-99 | counts consents created on today's day, so never more than the consents |
| BankDashboard.AddedConsentIsNewToday | app/bank/page.tsx:95-99 | adding a consent now raises `newToday` by exactly one |
| BankDashboard.RevokeCountsToday | app/bank/page.tsx:89-94 | revoking now never lowers `revokedToday`, and the revoked consent counts as revoked today |
| BankDashboard.PieData | app/bank/page.tsx:102-107 | at most four slices, only candidate slices, exactly the candidates with a positive value, in candidate order (Active, Expiring Soon, Expired, Revoked) |
| BankDashboard.StatusChart | app/bank/page.tsx:102-107 | the pie built from the store's counts: at most four slices, each with a positive value |
| BankDashboard.StatusChartSlices | app/bank/page.tsx:102-107 | no consents give no slices; an "Active" slice appears exactly when some consent is active |
| BankDashboard.FunnelChart | app/bank/page.tsx:110-116 | five bars |
| BankDashboard.FunnelChartNonIncreasing | app/bank/page.tsx:110-116 | the bars of the seed funnel do not increase |
| BankDashboard.AlertDaysLeft | app/bank/page.tsx:324 | the alert's `daysLeft`: the ceiling of the days until expiry, `(d-1)·day < expiresAt-now ≤ d·day` |
| BankDashboard.AlertDaysLeftInRange | app/bank/page.tsx:324 | every alert for the seven-day window shows 1 to 7 days left |
| UserPortal.InactiveList | app/user/page.tsx:240 | exactly the revoked and the expired consents |
| UserPortal.ListsPartition | app/user/page.tsx:239-240 | the lists are disjoint, omit pending, authorized and rejected consents, and together have all other consents |
| UserPortal.ListCounts | app/user/page.tsx:239-240 | the active, inactive, pending, authorized and rejected filters together have as many entries as the consents |
| UserPortal.IsExpiringSoon | app/user/page.tsx:83-84 | `0 < daysUntil ≤ 7`, which is `now < expiresAt ≤ now + 7 days` |
| UserPortal.ExpiringSoonAgreesWithStore | app/user/page.tsx:84 | an active card shows "Expiring Soon" exactly when the store's seven-day window holds its consent |
| UserPortal.HasPaymentPermission | app/user/page.tsx:85 | `includes('InitiatePayments')`: true exactly when some permission is of the payment category in the permission table |
| UserPortal.Badges | app/user/page.tsx:118-131 | the "Active" badge exactly for an active consent outside the window, the "Expiring Soon" badge exactly inside it |
| UserPortal.OneBadge | app/user/page.tsx:120-131 | a card is drawn for an active consent and shows exactly one badge, "Expiring Soon" exactly inside the window |
| UserPortal.CardShown | app/user/page.tsx:87 | a card is drawn exactly when the catalog has the consent's provider |
| UserPortal.InactiveCardLine | app/user/page.tsx:214-219 | a revoked card shows its revocation time, any other card its expiry, both relative to now |
| UserPortal.StatusLabel | app/user/page.tsx:229 | `charAt(0).toUpperCase() + slice(1)`: a non-empty label starting with a capital letter |
| UserPortal.StatusLabelInjective | app/user/page.tsx:229 | different statuses get different labels |
| UserPortal.InactiveLabel | app/user/page.tsx:229 | an inactive card is labelled Revoked exactly when revoked, otherwise Expired |
| UserPortal.ConnectedAppCard.constructor | app/user/page.tsx:76-77 | the card starts with the dialog closed |
| UserPortal.ConnectedAppCard.OpenRevokeModal | app/user/page.tsx:183 | "Revoke Access" opens the dialog |
| UserPortal.ConnectedAppCard.CloseRevokeModal | app/user/page.tsx:193 | cancelling closes the dialog |
| UserPortal.ConnectedAppCard.HandleRevoke | app/user/page.tsx:89-92 | confirming the open dialog revokes this card's consent in the store, as `RevokeConsent` states, and closes the dialog |
| UserPortal.ConnectedAppCard.HandleRenew | app/user/page.tsx:94-96 | offered only on a card rendered inside the expiry window; the click renews this card's consent without checking the window again, as `RenewConsent` states |
| ConnectWizard.StepNumber | app/user/connect/page.tsx:99-105 | each step's number is within 1..5 |
| ConnectWizard.StepNumberInjective | app/user/connect/page.tsx:99-105 | different steps have different numbers |
| ConnectWizard.Forward | app/user/connect/page.tsx:67 | each forward action advances the number by exactly one |
| ConnectWizard.Backward | app/user/connect/page.tsx:110-122 | the back button lowers the number by exactly one |
| ConnectWizard.BackUndoesForward | app/user/connect/page.tsx:110-122 | back undoes a forward step, and forward undoes back |
| ConnectWizard.Toggle | app/user/connect/page.tsx:70-84 | flips the membership of the element, leaves every other element's membership alone, and appends when absent |
| ConnectWizard.ToggleTwice | app/user/connect/page.tsx:70-84 | toggling twice restores membership, and restores the list when the element was absent |
| ConnectWizard.ToggleKeepsDistinct | app/user/connect/page.tsx:70-84 | a duplicate-free list stays duplicate-free |
| ConnectWizard.LowerChar | app/user/connect/page.tsx:52-53 | ASCII lower-casing of one character |
| ConnectWizard.Lower | app/user/connect/page.tsx:52-53 | lower-cases every character, keeping the length |
| ConnectWizard.LowerIdempotent | app/user/connect/page.tsx:52-53 | lower-casing twice is lower-casing once |
| ConnectWizard.ActiveTppIds | app/user/connect/page.tsx:49 | exactly the providers with an active consent |
| ConnectWizard.SearchOver | app/user/connect/page.tsx:50-54 | exactly the providers without an active consent whose name or description contains the query, ignoring case |
| ConnectWizard.AvailableTpps | app/user/connect/page.tsx:50-54 | `availableTPPs`: that search over the catalog, so never a provider already connected |
| ConnectWizard.SearchProperties | app/user/connect/page.tsx:52-53 | an empty query keeps every provider not yet connected, and the query's case does not matter |
| ConnectWizard.Preset | app/user/connect/page.tsx:60-66 | three permissions, starting with ReadAccountsBasic and ReadBalances; InitiatePayments exactly for PISP or AISP_PISP providers, ReadTransactionsBasic otherwise |
| ConnectWizard.AvailablePermissions | app/user/connect/page.tsx:24-31 | six distinct permissions: every account and payment permission and the two basic transaction reads |
| ConnectWizard.Wizard.constructor | app/user/connect/page.tsx:38-45 | the first step, no provider, no accounts, the two default permissions |
| ConnectWizard.Wizard.SetSearchQuery | app/user/connect/page.tsx:182 | typing changes only the query |
| ConnectWizard.Wizard.HandleSelectTpp | app/user/connect/page.tsx:58-68 | remembers the provider, sets the permissions to the preset of the catalog entry with that id, and advances one step |
| ConnectWizard.Wizard.ToggleAccount | app/user/connect/page.tsx:70-76 | toggles the account and keeps the list duplicate-free |
| ConnectWizard.Wizard.ContinueFromAccounts | app/user/connect/page.tsx:266-267 | advances one step only when an account is chosen |
| ConnectWizard.Wizard.TogglePermission | app/user/connect/page.tsx:78-84 | toggles the permission, except the required ReadAccountsBasic, which cannot be toggled |
| ConnectWizard.Wizard.ContinueToAuthenticate | app/user/connect/page.tsx:340 | advances one step |
| ConnectWizard.Wizard.Back | app/user/connect/page.tsx:110-122 | leaves the page on the first step, otherwise goes one step back; offered on every step but success |
| ConnectWizard.Wizard.HandleAuthenticate | app/user/connect/page.tsx:86-97 | moves to success and keeps every selection and the query; with a non-empty provider id, adds the consent and its log entry to the store with at least one account and with ReadAccountsBasic; with an empty id, leaves the store unchanged |

## Left out

- Randomness: `generateTrendData` (lib/data/mock-consents.ts:235-248) and `generateId` use `Math.random`, so the model has neither.
- Wall clock: `new Date()` and `Date.now()` are the parameter `now`; ISO strings are integer milliseconds.
- Generated ids: ids are caller-supplied parameters, so the collision of two `Date.now()` ids within one millisecond is not modelled.
- Calendar arithmetic: `setDate(getDate() + n)` is a fixed `n · 86,400,000` ms, and `setHours(getHours() - n)` in the seed data (`MockConsents.HoursAgo`) a fixed `n · 3,600,000` ms, so a change of daylight-saving time inside the interval is not modelled.
- Day comparison: `toDateString` equality is an abstract `dayOf` parameter.
- Locale formatting: `formatDate`, `formatDateTime`, `formatNumber` and `formatCurrency` depend on the `en-IE` locale. For seven or more days, `Clock.FormatRelativeTime` returns a marker `FormattedDate(t)` instead of the locale text.
- Display formatting: `formatPercentage`, the `toFixed` rendering of a floating-point number with a "%" sign, is not modelled.
- BankDashboard.RevocationRate: the rate is an exact rational. The source computes it in IEEE doubles, whose rounding near the 5% and 10% boundaries is not modelled. `Risk` compares by integer cross-multiplication, matching the exact rate.
- Wizard.HandleAuthenticate: the two-second delay and the `isAuthenticating` flag are not modelled. The handler is one atomic step.
- Libraries: zustand's subscription and re-rendering, `cn`, the charts, the animation and the routing are not modelled. The store is a plain object whose actions replace its fields. `Wizard.Back` reports leaving the page as a boolean instead of calling `router.push`.
- ConnectWizard.Lower, ConnectWizard.LowerChar: only ASCII letters are lower-cased; Unicode case mapping is not modelled.
- MockAccounts.FormatIbanShape: the layout is proved for non-empty input without whitespace. Other input is modelled by `FormatIban`, with JavaScript's `trim`, but has no layout lemma.
- Rendering: only the predicates that decide what is shown are modelled.
- app/page.tsx, the layouts and app/user/apps/[consentId]/page.tsx are not part of this model.
- The seed consent list, with its ISO strings, is built at a single load time `now`.
- The connect page imports `maskIBAN` from lib/utils (app/user/connect/page.tsx:10), which does not export it. The model uses the `maskIBAN` of lib/data/mock-accounts.ts.
- The `TPPMetrics` interface (lib/types/index.ts:95-103) is not used by the page, which builds its own rows, so it is not modelled.
- UserPortal.InactiveCardLine: a revoked consent without a revocation time shows the epoch, as `new Date(null)` does. The seed data and the store invariant exclude that case.
- Wizard.catalog: the wizard holds the provider catalog in a field that its constructor sets to `MockTpps.Catalog()`. The page reads the module constant `mockTPPs` directly.
