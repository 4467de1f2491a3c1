# Donation-platform admin dashboard: model of its client-side logic

The dashboard is a thin web client for a donation platform's staff. Staff
sign in, moderate institution accounts (approve, suspend, ban) and browse
a paginated donation ledger with a few summary figures. Almost all of it
renders fetched data. This project models the parts that decide
something, and proves what they guarantee:

- **Session store** (`AuthStore`). The store holds a bearer token and a
  cached profile, and keeps a copy in local storage under
  `"auth-storage"`. It is modelled as a class with `token`, `user` and
  `storage` fields. Its methods are `Login`, `Logout` and the
  rehydration hook. `IsLogged` and `GetUser` are functions that read the
  fields. A token is valid when it decodes and its `exp` claim lies
  strictly after the current time, as in section 4.1.4 of RFC 7519.
  `jwtDecode` is a parameter: a function from a token string to an
  optional `exp`. The clock is a parameter `nowMs` in milliseconds.
- **Route guard** (`AuthRoute`). The guard in front of the signed-in
  area either lets the navigation proceed or redirects to `/login`,
  carrying the original `href`.
- **Buffered pagination** (`DonationsPage`). The page fetches blocks of
  five pages through the `offset`/`limit` endpoint and cuts one page out.
  It also converts between the 1-based URL page and the 0-based table
  index. The main theorem: the rows shown are exactly the ledger rows
  `[pageIndex * pageSize, pageIndex * pageSize + pageSize)`.
- **Monthly growth** (`Metrics`). The growth figure is computed over
  exact rationals. `isSameMonth(parseISO(createdAt), now)` is a predicate
  parameter.
- **Moderation menu** (`ActionColumns`). Each institutions tab fixes the
  target statuses its menu offers, and the menu builds the request
  record it sends.
- **Display derivations** (`DonationColumns`, `AppSidebar`,
  `Dashboard`):
  - the donor, status-badge and destination cells of the donations table;
  - the avatar initials and the order inside sign-out;
  - the dashboard's counts, approved total and growth sign.

`JsBuiltins` spells out the JavaScript built-ins whose exact behaviour
matters:
- `%` truncates toward zero;
- `Array.prototype.slice` accepts negative and out-of-range indices;
- `split(' ')` keeps empty pieces;
- `filter`, `Math.round`, and `toUpperCase` on ASCII letters.

Modules follow the source files: `auth_store.dfy`, `auth_route.dfy`,
`donations_page.dfy`, `metrics.dfy`, `action_columns.dfy`,
`donation_columns.dfy`, `app_sidebar.dfy`, `dashboard.dfy`. The shared
records are in `types.dfy`, and `Option` is in `wrappers.dfy`.

## Model

| member | source | states |
|---|---|---|
| AuthStore.IsTokenValid | src/store/auth.store.ts:39-47 | A null or empty token is never valid. A token that fails to decode is invalid, and the check never fails. Otherwise the token is valid iff `exp * 1000 > nowMs`, which is the source's comparison `exp > now / 1000` multiplied out. `exp` may be fractional. |
| AuthStore.ExpiringThisSecondIsInvalid | src/store/auth.store.ts:43 | A token whose `exp` is the current second is invalid, because the comparison is strict. |
| AuthStore.ValidEarlier | src/store/auth.store.ts:43 | A token valid at some instant was valid at every earlier instant. |
| AuthStore.Restored | src/store/auth.store.ts:71-73 | Hydration restores the entry stored under `"auth-storage"` when there is one. Otherwise the current state stays. |
| AuthStore.Store.constructor | src/store/auth.store.ts:52-53 | The store starts with no token and no user, over whatever local storage holds. |
| AuthStore.Store.GetUser | src/store/auth.store.ts:54-56 | Returns the cached user unchanged, or nothing when none is cached. |
| AuthStore.Store.IsLogged | src/store/auth.store.ts:57-60 | True iff the stored token is valid now. This implies a token is present. |
| AuthStore.Store.Partialize | src/store/auth.store.ts:73 | Only `{token, user}` is persisted. Restoring that record into a fresh store gives back exactly the current token and user. |
| AuthStore.Store.SetState | src/store/auth.store.ts:50-51 | `set` under the persist middleware installs the fields and writes their partialized copy under the key. Nothing else in storage changes. |
| AuthStore.Store.Login | src/store/auth.store.ts:61-65 | A valid token installs the token and the user, and writes both to storage. An invalid token leaves token, user and storage as they were. After the call, the store is logged in iff the new token is valid or the store was logged in before. |
| AuthStore.Store.Logout | src/store/auth.store.ts:66-69 | Token and user become null, and the `"auth-storage"` entry is gone. Every other entry stays. The new state does not depend on the old one, so a second call changes nothing. |
| AuthStore.Store.OnRehydrateStorage | src/store/auth.store.ts:74-81 | If the state the hook is given holds a truthy but invalid token, the hook logs out. For a null or empty token, or a valid one, nothing changes. |
| AuthStore.Store.RehydrateAsWritten | src/store/auth.store.ts:74-81 | The hook runs on the state before the stored copy is read, and the copy is merged afterwards. |
| AuthStore.Store.Rehydrate | src/store/auth.store.ts:74-81 | The hook runs on the restored state. Afterwards any truthy token left in the store is valid. |
| AuthStore.StartupAsWritten | src/store/auth.store.ts:74-81 | At startup, with the source's order, a stored expired session is restored and kept, profile included, while `IsLogged` is false. |
| AuthStore.Startup | src/store/auth.store.ts:74-81 | At startup, with the hook applied after hydration, the same session is cleared and its storage entry removed. |
| AuthRoute.BeforeLoad | src/routes/_auth/route.tsx:7-16 | The navigation proceeds iff the context holds a store whose token is valid. Every other case redirects to `/login` with the original `href` as `search.redirect`. The guard only reads the store. |
| AuthRoute.UndefinedContextRedirects | src/routes/_auth/route.tsx:9 | With the router's initial `undefined` context, every navigation redirects to `/login`. |
| JsBuiltins.Split | src/components/app-sidebar.tsx:59 | `split(' ')` always gives at least one piece, and no piece contains a space. |
| JsBuiltins.Slice | src/routes/_auth/donations.tsx:47 | `slice` is never longer than the array. With both bounds in range it is the plain subsequence. Otherwise it is the run of the array that starts at the clamped start. |
| JsBuiltins.Rem | src/routes/_auth/donations.tsx:43 | JavaScript's `%` by a positive divisor: for a non-negative dividend it is the Euclidean remainder, so `a == (a div b) * b + r` and `0 <= r < b`. For a negative dividend it lies in `(-b, 0]`. |
| JsBuiltins.Upper | src/components/app-sidebar.tsx:62 | `toUpperCase` keeps the length and maps each character on its own: ASCII lower-case letters become upper-case and every other character is kept. |
| JsBuiltins.Filter | src/lib/metrics.ts:10-13 | `filter` is never longer than its input. Every kept element is in the input and passes the test. Every input element that passes the test is kept. |
| JsBuiltins.SplitJoin | src/components/app-sidebar.tsx:59 | `split(' ')` followed by `join(' ')` gives the name back. |
| JsBuiltins.FilterMultiset | src/lib/metrics.ts:10-13 | `filter` keeps each satisfying element as often as it occurs and drops every other element. |
| JsBuiltins.FilterCountPermutation | src/lib/metrics.ts:10-16 | Reordering the input does not change how many elements pass the filter. |
| DonationsPage.PaginationOf | src/routes/_auth/donations.tsx:10-12 | A missing `page` gives `pageIndex` 0, and otherwise `pageIndex` is `page - 1`. A missing `pageSize` gives 10. |
| DonationsPage.FetchWindow | src/routes/_auth/donations.tsx:20-45 | `fetchLimit` is `5 * pageSize`, and the cut is one page long. For every page, `fetchOffset` is the block number `pageIndex div 5` times `fetchLimit`. For `pageIndex >= 0` and `pageSize >= 0`, the cut satisfies `0 <= sliceStart` and `sliceEnd <= fetchLimit`, and `fetchOffset + sliceStart == pageIndex * pageSize`. |
| DonationsPage.BufferedData | src/routes/_auth/donations.tsx:40 | The fetched block's rows when a response exists, and no rows otherwise. |
| DonationsPage.RowCount | src/routes/_auth/donations.tsx:41 | `meta.total` when a response exists, and 0 otherwise. |
| DonationsPage.Displayed | src/routes/_auth/donations.tsx:43-47 | No response shows no rows. For any `pageSize >= 0`, at most `pageSize` rows are shown. |
| DonationsPage.RowsOfRows | src/routes/_auth/donations.tsx:47 | A cut that lies inside a fetched block gives the ledger rows at the block's offset plus the cut's start. |
| DonationsPage.DisplayedIsGlobalPage | src/routes/_auth/donations.tsx:31-47 | For `pageIndex >= 0` and `pageSize >= 0`, the rows shown are exactly the ledger rows `[pageIndex*pageSize, pageIndex*pageSize + pageSize)`. |
| DonationsPage.SameBlockSameFetch | src/routes/_auth/donations.tsx:31-38 | Two pages of the same size in the same block (`pageIndex div 5`) make the same `(offset, limit)` request. For a positive size the converse holds too. |
| DonationsPage.SeventhPageExample | src/routes/_auth/donations.tsx:26-45 | URL page 7 with size 10 fetches offset 50 and limit 50, and shows rows `[10, 20)` of the block. |
| DonationsPage.DisplayedIsContiguous | src/routes/_auth/donations.tsx:47 | For every page, including negative ones, the rows shown are one contiguous run of the fetched data. |
| DonationsPage.SetPagination | src/routes/_auth/donations.tsx:49-61 | The new search record always names both the page and the size. |
| DonationsPage.PaginationRoundTrip | src/routes/_auth/donations.tsx:27-28 | Writing `page = pageIndex + 1` and reading it back gives the same `pageIndex` and `pageSize`. This holds whether the table passes a value or an updater function. |
| DonationsPage.SearchRoundTrip | src/routes/_auth/donations.tsx:54-59 | Reading a URL that names both parameters and writing the result back gives the same URL. |
| JsBuiltins.MathRound | src/lib/metrics.ts:25 | `Math.round` gives the integer `n` with `n - 1/2 <= x < n + 1/2`. |
| Metrics.CalculateMonthlyGrowth | src/lib/metrics.ts:7-26 | The growth is never negative, and an empty list gives 0. |
| Metrics.RoundPercentage | src/lib/metrics.ts:23-25 | `Math.round(num / den * 100)` equals `(200*num + den) div (2*den)` for `num >= 0` and `den > 0`. |
| Metrics.GrowthCases | src/lib/metrics.ts:15-25 | `0 <= newThisMonth <= totalNow`. An empty list gives 0. A non-empty list with nothing from before this month gives 100. Otherwise the result is `round(100 * newThisMonth / totalLastMonth)`. |
| Metrics.NoNewItemsNoGrowth | src/lib/metrics.ts:10-25 | A non-empty list with no item from the current month gives 0. |
| Metrics.GrowthIgnoresOrder | src/lib/metrics.ts:10-17 | The result does not depend on the order of the items. |
| ActionColumns.ListedStatus | src/routes/_auth/institutions.tsx:19-63 | The registered, pending and suspended tabs list ACTIVE, PENDING and SUSPENDED accounts. No tab lists BANNED or INACTIVE accounts. |
| ActionColumns.Targets | src/components/institutions/action-columns.tsx:23-199 | No button of a tab requests the status the tab lists, none requests INACTIVE, and no two buttons of a tab request the same status. |
| ActionColumns.Press | src/components/institutions/action-columns.tsx:29-38 | A press sends a request iff nothing is pending and the button exists, because every button is disabled while the mutation runs. The request carries the row's own `id` as `accountId`, the store's current token, and the button's target status. |
| ActionColumns.TargetsArePolicy | src/components/institutions/action-columns.tsx:57-199 | Each tab's buttons are exactly the allowed targets for the status the tab lists: ACTIVE to {SUSPENDED, BANNED, PENDING}, PENDING to {ACTIVE, SUSPENDED}, SUSPENDED to {ACTIVE, BANNED}. No tab offers its own status, and none offers INACTIVE. |
| ActionColumns.PressRespectsPolicy | src/routes/_auth/institutions.tsx:20-73 | For a row shown on its tab, every request asks for an allowed status different from the row's own. The request also carries the row's id and the current token. |
| ActionColumns.EveryAllowedTargetOffered | src/components/institutions/action-columns.tsx:23-199 | Every allowed target has a button that requests it when nothing is pending. |
| DonationColumns.DonorName | src/components/donations/columns.tsx:25 | The donor's account name when present and non-empty, and `'Anônimo'` otherwise. |
| DonationColumns.Variant | src/components/donations/columns.tsx:45-50 | APPROVED maps to `default`, PENDING to `secondary`, and any other status to `destructive`. |
| DonationColumns.StatusClass | src/components/donations/columns.tsx:52-55 | Only APPROVED gets the green class, which is exactly the case of the `default` variant. |
| DonationColumns.StatusLabel | src/components/donations/columns.tsx:57-66 | The four known statuses map to their fixed labels. An unknown status is shown verbatim; names inherited from `Object.prototype` are treated as unknown (see "## Left out"). |
| DonationColumns.DestinationOf | src/components/donations/columns.tsx:74-83 | The project comes first, then the institution, then `'Geral'`. |
| AppSidebar.FirstChars | src/components/app-sidebar.tsx:60-61 | At most one character per piece. When no piece is empty, exactly one character per piece. |
| AppSidebar.Initials | src/components/app-sidebar.tsx:58-63 | No user gives no initials. Otherwise the initials have at most 2 characters. |
| AppSidebar.FirstCharsOfSplit | src/components/app-sidebar.tsx:59-61 | The first characters of the pieces between spaces are the word starts, in order. Empty pieces from doubled, leading or trailing spaces add nothing. |
| AppSidebar.InitialsAreWordStarts | src/components/app-sidebar.tsx:58-63 | The initials are the first two word starts of the name, upper-cased. |
| AppSidebar.DoubledSpaceExample | src/components/app-sidebar.tsx:60-61 | `"a  b"` gives `"AB"`: the empty piece takes no place among the two initials. |
| AppSidebar.HandleLogout | src/components/app-sidebar.tsx:53-56 | The session is cleared and its storage entry removed before the navigation to `/login`. Every other storage entry stays. At that point the store is signed out, so the guarded area redirects every navigation to `/login`. |
| Dashboard.AllAccounts | src/routes/_auth/index.tsx:38 | The institutions come first, then the donors. A missing list counts as empty. |
| Dashboard.ApprovedDonations | src/routes/_auth/index.tsx:41-43 | An element is kept iff it is one of the donations and its status is APPROVED. |
| Dashboard.SumAmounts | src/routes/_auth/index.tsx:47-50 | Reducing from a start value gives the start value plus the sum of all amounts. |
| Dashboard.TotalDonationsAmount | src/routes/_auth/index.tsx:41-50 | The total is the sum of the approved amounts, with every other donation counted as zero. |
| Dashboard.TotalIsApprovedSum | src/routes/_auth/index.tsx:41-50 | The total is 0 when no donation is approved, or when the donations have not arrived. |
| Dashboard.Count | src/routes/_auth/index.tsx:60 | The list length, or 0 when the data is undefined. |
| Dashboard.SignPrefix | src/routes/_auth/index.tsx:68 | `'+'` iff the growth is positive. Zero and negative values get no prefix. |
| Dashboard.DashboardStats | src/routes/_auth/index.tsx:36-86 | The institution and donor cards show the two list lengths. The donations card shows the approved total and the amount growth of the approved donations. The activity growth is the monthly growth of all accounts and is never negative. Each growth gets `'+'` iff it is positive. |
| Dashboard.UnapprovedDonationIgnored | src/routes/_auth/index.tsx:41-50 | Appending a donation that is not approved to the end of the list changes none of the figures, neither the total nor the amount-growth input. |
| Dashboard.ActivityGrowthSymmetric | src/routes/_auth/index.tsx:38-39 | The activity figure is the same whichever of institutions and donors comes first. |

## Findings

| source | as written | input that shows it | evidently intended | confidence | as-written member | corrected member |
|---|---|---|---|---|---|---|
| src/store/auth.store.ts:74-81 | The expiry check is the outer `onRehydrateStorage(state)` function. The persist middleware calls that function before it reads local storage, passing the store's initial state, whose token is null. | Local storage holds `{token: t, user: u}` and `t` has expired. After startup the store still holds `t` and `u`, and the storage entry remains. | The check runs on the restored state, in the callback that `onRehydrateStorage` may return. An expired stored token is then logged out at startup. | medium; not executed; relies on the persist middleware's documented call order, which is outside this source | AuthStore.StartupAsWritten | AuthStore.Startup |

In the table, `IsLogged` is already false for the kept session, so the
guard of the signed-in area redirects every navigation to `/login`. The
expired token and the profile stay in the store and in local storage,
where any reader of the store obtains them. No guarded page renders or
sends them, because the moderation menu and the uses of `getUser()` all
sit behind the guard. `Store.RehydrateAsWritten` models the as-written
order. `Store.Rehydrate` is the corrected one.

## Left out

- Rendering: all JSX, styling and component-library behaviour. Only the values the cells and cards display are modelled.
- The HTTP layer (`src/lib/backend.ts`, `src/service/**`) is not modelled. The `offset`/`limit` endpoint is represented by `DonationsPage.Rows` over an ordered ledger, using the enveloped `{data, meta.total}` shape that the donations page reads. The `page`/`limit` variant that returns a bare array is not modelled.
- The request cache is left out, because it is library behaviour: query keys, `enabled: !!token`, placeholder data and invalidation after a status change.
- Library internals are parameters: `jwtDecode` is `Decoder`, where `None` stands for a thrown error or a non-numeric `exp`. A numeric `exp` is an exact real, so fractional values are covered, but the double rounding of `Date.now() / 1000` is not. `Date.now()` is `nowMs`, and `isSameMonth(parseISO(...), now)` is a predicate.
- zod's coercion and fallback of malformed URL values are left out. `Search` holds integers or nothing. The `catch(1)` and `catch(10)` fallbacks, and non-integer numbers, are not modelled.
- Floating point is left out. Amounts are integer cents and the growth division is exact rational arithmetic. JavaScript computes both in doubles and can differ at exact halves. `Intl.NumberFormat` and `toLocaleDateString` formatting are not modelled.
- `calculateMonthlyAmountGrowth` is imported by `src/routes/_auth/index.tsx` but not defined in `src/lib/metrics.ts`. It is an uninterpreted function parameter of `Dashboard.DashboardStats`.
- The growth and figure texts (`${prefix}${growth}%`) are not modelled as strings. Only the prefix and the number are.
- `AppSidebar.Initials`: `toUpperCase` is modelled per character on ASCII letters. Other characters are kept as they are. Full Unicode case mapping, which may change a string's length, is not modelled.
- `AppSidebar.Initials`: `n[0]` and `slice(0, 2)` work on UTF-16 code units, so a name starting with a character outside the Basic Multilingual Plane gives a lone surrogate. The model indexes `seq<char>`, whose elements are whole Unicode scalar values, and does not capture this.
- `AppSidebar.Initials`: `User.name` is a plain string, as its type declares. So `user?.name` can only be absent when the user is.
- `DonationColumns.StatusLabel`: the label table is a plain JavaScript object, so a status that names an `Object.prototype` member (`toString`, `constructor`, `valueOf`, `__proto__`) finds that inherited member instead of a label. The model treats those names as unknown statuses shown verbatim. The backend's status enumeration never sends them. `StatusClass` does the same lookup but applies no style either way, so its `None` matches.
- The profile's `media` field is reduced to an optional URL.
- `User | null` and `undefined` are both `None`. `login.tsx` calls `login(token)` with no user, and the model passes `None` for that call.
- Persist details are left out. The middleware's version field and its write-back after hydration are not modelled: they write back the value just read. `storage` holds only the entries this store writes.
- The constant label tables and wiring are not part of this model: `src/components/institutions/columns.tsx`, the tab layout, `src/main.tsx`, `src/routes/__root.tsx` and `vite.config.ts`. The one exception is the status each tab lists, which is `ActionColumns.ListedStatus`.
- The login page's own guard (redirect a signed-in visitor to `redirect` or `/`) is not part of this model.
- Concurrency is left out: the asynchronous mutation and the ordering of network responses.
