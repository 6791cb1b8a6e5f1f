# Distribution matrix — a Dafny model

The distribution matrix tracks which clients (brands) are stocked at which
retailers, and how: on shelves, on shelves and screens, or as an excluded
"x-client". It has two halves, and this project models both.

- **Server.** An HTTP server keeps clients, retailers, distributions, an
  activity log, a daily analytics history and multi-user organizations in
  a key-value store.
- **Browser app.** The app either talks to the server or keeps the same
  lists locally. It derives its dashboard figures, matrix colours and
  retailer panel from those lists.

The modules follow the program's structure:

| module | file | models |
|---|---|---|
| `Common` | common.dfy | JSON body fields (absent, `null`, given), JavaScript truthiness, `??`, ASCII lower-casing, substring search, decimal rendering of integers |
| `Seqs` | seqs.dfy | `filter`, `findIndex`, `reverse`, order-preserving subsequences |
| `Types` | types.dfy | the records of `src/app/types.ts` and the server's organization records, roles, error codes |
| `Metrics` | metrics.dfy | active distributions, coverage percentage, the by-status tally, a day's snapshot (shared by server and dashboard) |
| `Entities` | entities.dfy | the server's pure helpers: distribution upsert, activity log push, client and retailer merges and deletes, the retailer id slug, the snapshot history upsert |
| `Orgs` | orgs.dfy | profiles, memberships, invites, member roles, the removal guard, the organization list join |
| `Server` | server.dfy | class `Store`: one field per store key, one method per route, the `forEach` tally and the organization list as loops |
| `LocalMode` | app.dfy | the app's local-data updaters and `filteredClients` |
| `Dashboard` | dashboard.dfy | the dashboard's metrics, pie data, history window and placeholder history loop |
| `RetailerDetail` | retailer_detail.dfy | contact editing, saving the retailer, the retailer's clients and their status breakdown, status labels |
| `ActivityFeed` | activity_feed.dfy | relative time stamps, status labels |
| `MatrixView` | matrix_view.dfy | the physical/digital split, the cell lookup, cell and badge colours |

**What is an input.** Each store key is a field of `Store`, and each
request runs to completion before the next begins. The signed-in user
(`verifyUser`) is an `Option<User>`, where `None` answers 401. Fresh
UUIDs, `Date.now()`, ISO time stamps and today's date are method
parameters. The placeholder history's dates are a function
`dateBefore: nat -> string` giving the date `i` days before today.

**How routes are specified.** Each route states its full new state through
the ghost views `Tables()` (the entity keys) and `OrgState()` (the
organization keys). Its error results carry the exact status codes and
messages of the source.

## Model

| member | source | states |
|---|---|---|
| Metrics.ActiveDistributionsSpec | supabase/functions/server/index.tsx:571-572 | a distribution is active exactly when its status is not empty; the active ones are an order-preserving subsequence; all are active iff none has the empty status |
| Metrics.Coverage | supabase/functions/server/index.tsx:575-578 | 0 when there are no client-retailer pairs; otherwise 100·active/possible rounded half up, pinned by its two bounds |
| Metrics.CoverageAtMost100 | supabase/functions/server/index.tsx:575-578 | coverage is at most 100 when active distributions do not outnumber the pairs |
| Metrics.CoverageCanExceed100 | supabase/functions/server/index.tsx:575-578 | with more active distributions than pairs (the upsert never checks ids) coverage exceeds 100 |
| Metrics.TallyCorrect | supabase/functions/server/index.tsx:581-584 | about `Metrics.Tally`, the fold of `Metrics.Bump` over the clients: each status's count equals the number of clients with that status, keys are distinct, counts positive, and the counts sum to the number of clients |
| Metrics.TallyKeys | supabase/functions/server/index.tsx:581-584 | a status is a key of the tally exactly when some client has it |
| Metrics.BumpLookup | supabase/functions/server/index.tsx:583 | one increment raises that status's count by one and leaves every other count |
| Metrics.SnapshotMetrics | supabase/functions/server/index.tsx:613-635 | a snapshot's totals are the list lengths, its by-status counts sum to its total clients, its coverage is 0 without pairs |
| Server.TallyByStatus | supabase/functions/server/index.tsx:581-584 | the `forEach` counting loop computes the tally |
| Server.CurrentMetrics | supabase/functions/server/index.tsx:569-584 | the route's current figures: active count, coverage (0 without pairs), a tally whose counts are the per-status client counts and sum to the clients |
| Entities.PairIndex | supabase/functions/server/index.tsx:312-314 | the first index whose record has the pair, or none exactly when no record has it |
| Entities.ServerUpsertSpec | supabase/functions/server/index.tsx:311-331 | about `Entities.ServerUpsert`, which computes the route's new list: with unique pairs before: unique after, exactly the records with the pair carry the new status, notes and time stamp, every other record keeps its position, the length grows by one iff the pair was absent, and only an appended record gets `createdAt` |
| Entities.UpsertTwiceKeepsLast | supabase/functions/server/index.tsx:311-331 | two upserts of one pair leave one record for it, carrying the second's values |
| Entities.PushActivity | supabase/functions/server/index.tsx:334-346 | the new entry is first, the old log follows in order, a log of at most 100 stays at most 100 by dropping the oldest |
| Entities.ClientIndex | supabase/functions/server/index.tsx:390 | the first client with the id, or none exactly when no client has it |
| Entities.MergeClient | supabase/functions/server/index.tsx:396-402 | id and `createdAt` kept; name and status replaced unless null or absent; `statusDate` replaced unless absent, so an explicit null clears it |
| Entities.MergeClientIdempotent | supabase/functions/server/index.tsx:396-402 | applying the same update twice is applying it once, up to the time stamp |
| Entities.ClientsWithoutId | supabase/functions/server/index.tsx:419-423 | exactly the clients without the id, in order; the length is unchanged iff no client had it (the 404 test) |
| Entities.DistributionsWithoutClient | supabase/functions/server/index.tsx:428-431 | exactly the distributions of other clients, in order |
| Entities.SubsequenceKeepsPairsUnique | supabase/functions/server/index.tsx:428-431 | deleting distributions keeps pairs unique |
| Entities.RetailerIndex | supabase/functions/server/index.tsx:480 | the first retailer with the id, or none exactly when no retailer has it |
| Entities.MergeRetailer | supabase/functions/server/index.tsx:486-496 | id and `createdAt` kept; name, category and type replaced unless null or absent; contacts, line review timing, reset dates and notes replaced when given, set to none when null, kept when absent |
| Entities.RetailersWithoutId | supabase/functions/server/index.tsx:513-517 | exactly the retailers without the id, in order; the length is unchanged iff none had it |
| Entities.DistributionsWithoutRetailer | supabase/functions/server/index.tsx:522-525 | exactly the distributions of other retailers, in order |
| Entities.Slug | supabase/functions/server/index.tsx:452 | same length as the name; ASCII letters lower-cased, digits kept, everything else a dash |
| Entities.SlugIdempotent | supabase/functions/server/index.tsx:452 | slugging a slug changes nothing |
| Entities.ServerRetailerIdSpec | supabase/functions/server/index.tsx:452 | the id is the slug, a dash and the decimal time stamp, which can be read back from the id |
| Entities.DateIndex | supabase/functions/server/index.tsx:638 | the first snapshot with the date, or none exactly when none has it |
| Entities.HistoryUpsertSpec | supabase/functions/server/index.tsx:637-648 | about `Entities.HistoryUpsert`, which computes the new history: the history never exceeds 90; an entry with today's date is replaced in place, otherwise the snapshot is prepended; with unique dates before, exactly one entry has today's date after and it is the snapshot |
| Common.NatToString | supabase/functions/server/index.tsx:452 | the decimal rendering is non-empty, all digits, and "0" only for 0 |
| Common.DigitsRoundTrip | supabase/functions/server/index.tsx:452 | reading the decimal rendering back gives the number |
| Common.Lower | src/app/App.tsx:413 | same length, each character lower-cased |
| Common.LowerIdempotent | src/app/App.tsx:413 | lower-casing twice is lower-casing once |
| Common.ContainsEmpty | src/app/App.tsx:413 | every string contains the empty search term |
| Orgs.ProfileOr | supabase/functions/server/index.tsx:694-704 | a stored profile is used as it is; otherwise a fresh profile of the user with no organization and none current |
| Orgs.MembershipIndex | supabase/functions/server/index.tsx:824 | the first membership of the organization, or none exactly when there is none |
| Orgs.FindMembership | supabase/functions/server/index.tsx:987 | the membership found belongs to the profile and the organization; none exactly when the profile is missing or has no membership of it |
| Orgs.MembershipTests | supabase/functions/server/index.tsx:852-854 | membership means some entry for the organization; an admin is a member; a missing profile is neither |
| Orgs.CreatorProfile | supabase/functions/server/index.tsx:765-766 | the creator's profile gains an admin membership at the end and the new organization becomes current |
| Orgs.CreatorIsAdmin | supabase/functions/server/index.tsx:765-766 | for a new organization id, the creator is its admin |
| Orgs.AcceptIntoProfile | supabase/functions/server/index.tsx:954-957 | one membership with the invite's role is appended; the organization becomes current only when none was |
| Orgs.AcceptMakesMember | supabase/functions/server/index.tsx:954 | after acceptance the user is a member |
| Orgs.MembershipsWithout | supabase/functions/server/index.tsx:1058 | exactly the memberships of other organizations, in order |
| Orgs.LeaveProfile | supabase/functions/server/index.tsx:1057-1061 | no membership of the organization is left; if it was current, the first remaining organization (or none) becomes current, otherwise the current one stays |
| Orgs.LeaveEndsMembership | supabase/functions/server/index.tsx:1057-1061 | afterwards the user is not a member and the organization is not current |
| Orgs.SwitchProfile | supabase/functions/server/index.tsx:829 | the organization becomes current and the memberships are kept |
| Orgs.InviteIndex | supabase/functions/server/index.tsx:923 | the first invite with the id and the email, or none exactly when there is none |
| Orgs.MarkAccepted | supabase/functions/server/index.tsx:930 | only the found invite changes, and only its status, to accepted |
| Orgs.AcceptOnce | supabase/functions/server/index.tsx:925-930 | an accepted invite can no longer be accepted |
| Orgs.MemberIndex | supabase/functions/server/index.tsx:994 | the first member with the user id, or none exactly when there is none |
| Orgs.SetMemberRole | supabase/functions/server/index.tsx:999 | only that member changes, and only its role |
| Orgs.SetProfileRole | supabase/functions/server/index.tsx:1006-1010 | without a membership of the organization the profile is kept; otherwise only that membership's role changes |
| Orgs.SetProfileRoleTakesEffect | supabase/functions/server/index.tsx:1006-1010 | afterwards the membership found for the organization has the new role |
| Orgs.Admins | supabase/functions/server/index.tsx:1043 | exactly the admin entries of the member list |
| Orgs.WithoutMember | supabase/functions/server/index.tsx:1051 | exactly the entries of other users, in order |
| Orgs.SelfRemovalGuardCountsEntries | supabase/functions/server/index.tsx:1041-1047 | about `Orgs.SelfRemovalBlockedAsWritten`, the guard as written: it lets a sole admin user holding two admin entries remove themselves, leaving no admin |
| Orgs.SelfRemovalKeepsAnAdmin | supabase/functions/server/index.tsx:1041-1047 | about `Orgs.SelfRemovalBlocked`, the corrected guard: it blocks whatever the written one blocks, and a self-removal it allows leaves an admin of another user |
| Orgs.JoinOrgsSpec | supabase/functions/server/index.tsx:791-797 | each entry is a stored organization with the role of one of the memberships, and every membership of a stored organization yields an entry |
| Server.Store.PostDistribution | supabase/functions/server/index.tsx:303-349 | missing or empty ids answer 400 and change nothing; otherwise the distributions become the upsert, the log gains the entry, nothing else changes, and the answer is the updated record |
| Server.Store.PostClient | supabase/functions/server/index.tsx:356-381 | a falsy name or missing status answers 400 and changes nothing; otherwise exactly one new client is appended |
| Server.Store.PutClient | supabase/functions/server/index.tsx:384-411 | 404 iff no client has the id; otherwise only the first such client is replaced by its merge |
| Server.Store.DeleteClient | supabase/functions/server/index.tsx:414-439 | 404 iff no client has the id; otherwise no client with it and no distribution of it remains, the others survive in order |
| Server.Store.PostRetailer | supabase/functions/server/index.tsx:442-471 | a falsy name, missing category or falsy type answers 400 and changes nothing; otherwise exactly one retailer with the slug-and-time id is appended |
| Server.Store.PutRetailer | supabase/functions/server/index.tsx:474-505 | 404 iff no retailer has the id; otherwise only the first such retailer is replaced by its merge |
| Server.Store.DeleteRetailer | supabase/functions/server/index.tsx:508-533 | 404 iff no retailer has the id; otherwise no retailer with it and no distribution of it remains, the others survive in order |
| Server.Store.ClearAllData | supabase/functions/server/index.tsx:536-547 | clients, retailers and distributions become empty; the log, history and organizations are kept |
| Server.Store.GetAnalytics | supabase/functions/server/index.tsx:561-600 | the current figures of the stored lists and the first (newest) min(30, n) history entries |
| Server.Store.PostSnapshot | supabase/functions/server/index.tsx:603-657 | the answer is today's snapshot of the stored lists, the history becomes its upsert and contains it; nothing else changes |
| Server.Store.GetProfile | supabase/functions/server/index.tsx:684-711 | 401 without a user; a stored profile is returned unchanged; otherwise a fresh profile is stored and returned |
| Server.Store.CreateOrganization | supabase/functions/server/index.tsx:714-774 | 401 without a user, 400 for a falsy name; otherwise the organization is stored with exactly the creator as admin member, empty data lists, and the creator's profile gains an admin membership with the organization current |
| Server.Store.ListOrganizations | supabase/functions/server/index.tsx:777-804 | 401 without a user, an empty list without a profile; otherwise the loop yields the join of the memberships with the stored organizations |
| Server.Store.SwitchOrganization | supabase/functions/server/index.tsx:807-837 | succeeds iff the caller is a member; 404 without a profile, 403 for a non-member; on success only the current organization changes |
| Server.Store.GetMembers | supabase/functions/server/index.tsx:840-862 | 401 without a user, 403 unless the caller is a member, otherwise the member list |
| Server.Store.InviteMember | supabase/functions/server/index.tsx:865-910 | 400 for a missing email or role or an unknown role, 403 unless admin; otherwise one pending invite with the lower-cased email is appended |
| Server.Store.AcceptInvite | supabase/functions/server/index.tsx:913-965 | succeeds iff a pending invite has the id and the caller's lower-cased email; then it becomes accepted, the caller is appended as member and to their profile with the invite's role |
| Server.Store.UpdateMemberRole | supabase/functions/server/index.tsx:968-1018 | 400 for an unknown role, 403 unless admin, 404 for an unknown member; otherwise that member's and that profile membership's role change |
| Server.Store.RemoveMember | supabase/functions/server/index.tsx:1021-1070 | 403 unless admin, 400 when the (corrected) self-removal guard blocks; otherwise the user's entries leave the member list and the organization leaves their profile; a self-removal leaves an admin |
| LocalMode.LocalUpsertSpec | src/app/App.tsx:431-442 | about `LocalMode.LocalUpsert`, the local updater: if a record has the pair, every record with it gets the new status and notes with other fields kept and the length is unchanged; otherwise exactly one record is appended |
| LocalMode.LocalUpsertIdempotent | src/app/App.tsx:431-442 | repeating an update changes nothing more |
| LocalMode.LocalUpsertAgreesWithServer | src/app/App.tsx:431-442 | with unique pairs, local and server upserts agree on every record's pair, status and notes |
| LocalMode.LocalDeleteClient | src/app/App.tsx:526-527 | removes exactly that client and its distributions, keeping the others in order and the retailers |
| LocalMode.LocalDeleteRetailer | src/app/App.tsx:605-606 | removes exactly that retailer and its distributions, keeping the others in order and the clients |
| LocalMode.LocalDeleteMatchesServer | src/app/App.tsx:526-527 | local deletes keep the same records as the server's |
| LocalMode.LocalUpdateClient | src/app/App.tsx:502 | only clients with the id change: name, status and status date replaced, id kept |
| LocalMode.LocalUpdateClientIdempotent | src/app/App.tsx:502 | updating twice is updating once |
| LocalMode.LocalUpdateRetailer | src/app/App.tsx:581 | only retailers with the id change: name, category and type replaced, id kept |
| LocalMode.LocalUpdateRetailerFull | src/app/App.tsx:626 | each retailer with the id is replaced whole, the others kept |
| LocalMode.FullUpdateSubsumesPartial | src/app/App.tsx:581 | a partial update is a full update with the edited record |
| LocalMode.LocalAddClient | src/app/App.tsx:473-478 | exactly one client appended at the end |
| LocalMode.LocalRetailerIdSpec | src/app/App.tsx:549 | the local id is the slug: same length, slug characters only; the server's id is it plus a dash and the time stamp |
| LocalMode.LocalRetailerIdsCollide | src/app/App.tsx:549 | two different names can give the same local id |
| LocalMode.LocalAddRetailer | src/app/App.tsx:547-557 | exactly one retailer appended at the end, with the slug id and empty contacts and texts |
| LocalMode.LocalClear | src/app/App.tsx:190-195 | all three lists become empty |
| LocalMode.FilteredClients | src/app/App.tsx:412-416 | a subsequence of the clients holding exactly those whose lower-cased name contains the lower-cased term and whose status matches the filter |
| LocalMode.NoFilterShowsAll | src/app/App.tsx:412-416 | with an empty term and filter `all`, every client is shown |
| LocalMode.UnknownStatusFilterShowsNone | src/app/App.tsx:414 | a filter naming no status shows nothing |
| Dashboard.DashboardMetricsSpec | src/app/components/Dashboard.tsx:43-53 | active distributions are those with a status, coverage is 0 without pairs and at most 100 when active ≤ pairs, status counts are per-status client counts summing to the clients |
| Dashboard.StatusColorsDistinct | src/app/components/Dashboard.tsx:26-31 | each client status has its own colour, none the default |
| Dashboard.PieDataSpec | src/app/components/Dashboard.tsx:55-59 | one slice per distinct status of some client and none other, names distinct, each slice's value that status's client count |
| Dashboard.RecentHistory | src/app/components/Dashboard.tsx:62-64 | the min(14, n) newest entries of a newest-first history, oldest first |
| Dashboard.PlaceholderHistory | src/app/components/Dashboard.tsx:66-85 | exactly 14 snapshots of today's figures, dated 13 days back to today |
| Dashboard.HistoryData | src/app/components/Dashboard.tsx:62-64 | the recent window when a history is present and non-empty, otherwise the 14-day placeholder |
| RetailerDetail.AddContact | src/app/components/RetailerDetailPanel.tsx:101-117 | a blank name changes nothing; otherwise one contact from the form is appended and the earlier ones are unchanged |
| RetailerDetail.UpdateContact | src/app/components/RetailerDetailPanel.tsx:119-132 | no edited id or a blank name changes nothing; otherwise only contacts with that id take the form's fields, and every id is kept |
| RetailerDetail.UpdateContactIdempotent | src/app/components/RetailerDetailPanel.tsx:119-132 | submitting an edit twice is submitting it once |
| RetailerDetail.DeleteContact | src/app/components/RetailerDetailPanel.tsx:146-149 | exactly the contacts with other ids, in order |
| RetailerDetail.DeleteUndoesAdd | src/app/components/RetailerDetailPanel.tsx:101-149 | deleting a contact just added under a fresh id gives the list back |
| RetailerDetail.SaveRetailerInfo | src/app/components/RetailerDetailPanel.tsx:151-162 | contacts, line review timing, reset dates and notes replaced, every other field kept |
| RetailerDetail.SaveUneditedFillsBlanks | src/app/components/RetailerDetailPanel.tsx:57-65 | saving an unedited panel is the identity on a complete retailer and fills missing fields with empty values |
| RetailerDetail.CarriedDistributions | src/app/components/RetailerDetailPanel.tsx:50 | exactly the retailer's distributions with a status whose client exists, in store order |
| RetailerDetail.RetailerClientsSpec | src/app/components/RetailerDetailPanel.tsx:49-55 | about `RetailerDetail.RetailerClients`: the entries are, position by position, the carried distributions in store order, each joined with the first client of its id |
| RetailerDetail.RetailerClientsMembers | src/app/components/RetailerDetailPanel.tsx:49-55 | each entry pairs an active distribution of the retailer with the first client of its id; every such distribution whose client exists has an entry |
| RetailerDetail.RetailerBreakdownSum | src/app/components/RetailerDetailPanel.tsx:503-521 | the three `RetailerDetail.Breakdown` counts (shelves, shelves-and-screens, x-client) add up to the number of the retailer's clients, which is the number of its carried distributions |
| RetailerDetail.BreakdownSum | src/app/components/RetailerDetailPanel.tsx:503-521 | for entries that all have a status, the three `RetailerDetail.Breakdown` counts add up to the number of entries |
| RetailerDetail.PanelStatusLabel | src/app/components/RetailerDetailPanel.tsx:83-90 | `Not Active` exactly for statuses other than the three known ones |
| RetailerDetail.PanelLabelsDistinct | src/app/components/RetailerDetailPanel.tsx:83-90 | the three statuses have labels of their own, and only the empty one reads `Not Active` |
| ActivityFeed.JustNow | src/app/components/ActivityFeed.tsx:66-74 | about `ActivityFeed.FormatTimestamp`, a function of the millisecond difference: a difference below a minute, negative ones included, reads `Just now` |
| ActivityFeed.MinutesAgo | src/app/components/ActivityFeed.tsx:70-75 | from one minute to an hour: the whole minutes, between 1 and 59, then `m ago` |
| ActivityFeed.HoursAgo | src/app/components/ActivityFeed.tsx:70-76 | from one hour to a day: the whole hours, between 1 and 23, then `h ago` |
| ActivityFeed.DaysAgo | src/app/components/ActivityFeed.tsx:70-77 | from one day on: the whole days, at least 1, then `d ago` |
| ActivityFeed.DivDiv | src/app/components/ActivityFeed.tsx:70-72 | flooring twice equals flooring once by the product of the divisors |
| ActivityFeed.FeedStatusLabel | src/app/components/ActivityFeed.tsx:47-55 | the empty status reads `Removed`; any unknown status is shown unchanged |
| ActivityFeed.LabelsAgree | src/app/components/ActivityFeed.tsx:47-55 | the feed and the panel label the three known statuses alike and differ on the empty one |
| MatrixView.PhysicalRetailers | src/app/components/MatrixView.tsx:12 | exactly the physical retailers, in order |
| MatrixView.DigitalRetailers | src/app/components/MatrixView.tsx:13 | exactly the digital retailers, in order |
| MatrixView.CategoriesPartition | src/app/components/MatrixView.tsx:12-13 | the two groups together hold every retailer once |
| MatrixView.GetDistribution | src/app/components/MatrixView.tsx:15-17 | the first distribution of the pair, or none exactly when none matches |
| MatrixView.GetDistributionUnique | src/app/components/MatrixView.tsx:15-17 | with unique pairs, a cell shows its pair's only record |
| MatrixView.CellColor | src/app/components/MatrixView.tsx:19-31 | white exactly for a missing, empty or unknown status |
| MatrixView.CellOfSpec | src/app/components/MatrixView.tsx:19-31 | a cell is coloured exactly when its pair's first record has a status; the three statuses have distinct colours |
| MatrixView.StatusBadgeColor | src/app/components/MatrixView.tsx:33-46 | gray exactly for anything but the four client statuses |
| MatrixView.BadgeColorsDistinct | src/app/components/MatrixView.tsx:33-46 | the four client statuses have four distinct badges, none gray |

## Left out

- The key-value store is not part of this model. Its keys are fields of `Store`, and each request runs alone. Lost updates between concurrent requests are not modelled.
- Profile and member list are written in separate steps. A crash between the two writes can leave them disagreeing; that is not modelled.
- Authentication (signup, login, session, logout, `verifyUser`) is not modelled. The caller is an `Option<User>` input.
- Seeding the database with sample data is not modelled. It only writes fixed records.
- The `/user/invites` route is not modelled. It depends on the store's key pattern scan.
- The plain list reads (`GET /clients`, `/retailers`, `/distributions`, `/activity`) are not modelled. They only return a stored list, or `[]` when it is missing.
- The `500` answers are not modelled. They arise only from exceptions thrown by the store.
- Metrics.Coverage: computes exact half-up rounding of 100·active/possible. The source rounds a floating-point quotient, and at a few inputs the result is one less (29 of 200 gives 14, not 15).
- Coverage is not bounded by 100 in general. The upsert never checks that its ids exist, so active distributions can outnumber the pairs.
- Client statuses, retailer categories and distribution statuses are the enumerations of the app's types. The server stores any string.
- Lower-casing and the slug are defined on ASCII only. `toLowerCase` and the slug regex also act on other Unicode letters.
- `trim` is modelled with ASCII white space.
- Dashboard.StatusColor: `STATUS_COLORS[name]` on a name such as `constructor` would return an inherited property. Only the enumerated statuses are modelled.
- The time-stamp text is not modelled, nor `Date` parsing (an unparsable time stamp gives `NaN`) or the ISO date split. Time stamps and dates are parameters, and `formatTimestamp` is a function of the millisecond difference.
- The entity routes use global keys and check neither identity nor role. The model has no organization scoping there either.
- Stored optional fields do not distinguish `undefined` from `null`. Both are `None` in the model.
- There is no global "every organization keeps an admin" invariant. The last admin may still demote themselves through a role update.
- RemoveMember: uses the corrected self-removal guard listed under Findings. The guard as written is `Orgs.SelfRemovalBlockedAsWritten`.
- The panels' `getStatusColor` helpers and all rendering are not modelled. Polling, `fetch`, React state and the chart library are also left out.

## Findings

| source | as written | input that shows it | evidently intended | confidence | as-written member | corrected member |
|---|---|---|---|---|---|---|
| supabase/functions/server/index.tsx:1041-1047 | the self-removal guard counts admin entries in the member list, not admin users | a sole admin user whose list holds two admin entries, which accepting a second admin invite produces (index.tsx:934-942 appends without de-duplicating), removes themselves and the organization has no admin | a self-removal is refused unless an admin other than the caller remains | not executed | Orgs.SelfRemovalGuardCountsEntries | Orgs.SelfRemovalKeepsAnAdmin |
