# run-ranking, modelled in Dafny

run-ranking is a running league. Runners sign in with Strava. A scheduled
job pulls their runs from Strava into a Supabase store, and the home page
ranks the active runners by distance and charts the group's activity.
This project models the logic of that system in Dafny and proves what the
code promises:

- **Token management** (`ServicoAutenticacao`, `auth.dfy`). The class
  `Auth.AuthService` sits over the store `Store.Database` and the gateway
  `Gateway.StravaGateway`.
  - `garantirTokenValido` returns the stored access token while it is valid
    more than 300 seconds ahead. Otherwise it refreshes the token and
    overwrites the three credential columns.
  - `loginComStrava` only updates a runner who is already registered.
- **Fleet sync** (`ServicoSincronizacao`, `sync.dfy`).
  - `sincronizarCorredor` lists the runner's activities since 1 January of
    the current local year. It keeps those of type `"Run"` and upserts them
    by activity id.
  - `sincronizarTudo` syncs every active runner, one after the other. It
    isolates each runner's failure and builds the report (`total`,
    `sucessos`, `falhas`, `detalhes`).
- **Ranking** (`getRankingData` and `RankingList`, `ranking.dfy` and
  `seqs.dfy`). Each runner's activities are filtered by an inclusive date
  range or by the UTC year, their distances are summed, and the runners
  are sorted by total with a stable descending sort.
- **Analytics** (`analytics.dfy`). The dashboard is built from:
  - twelve monthly slots;
  - six distance bands with inclusive upper bounds;
  - the first month of largest volume;
  - the top three runners and their monthly series;
  - the pie without its empty slices.
- **HTTP boundary** (`routes.dfy`). Each handler is a total function from
  the request's facts to a response:
  - the Strava webhook handshake and its always-200 receipt;
  - the cron bearer-secret gate;
  - the OAuth callback redirects, including `encodeURIComponent`. The
    code never calls its inverse, `decodeURIComponent`. That inverse is
    modelled beside it, as ECMA-262 defines it, and reads every encoded
    message back exactly.
- **Response schemas** (`runner_schema.dfy`, `activity_schema.dfy`,
  `json.dfy`). The zod schemas become datatypes, validity predicates and
  parsers over a JSON value. The athlete, token-response, route-map,
  activity and activity-list parsers each have a round trip. The athlete,
  token-response and activity parsers also have a soundness lemma: what
  they accept is embedded in their input. They also have the converse:
  zod strips unknown keys, so an input that carries a valid value's keys
  parses to that value whatever extra keys sit beside them, at any depth.
  The list parser has the same converse. The field parsers
  `ParseProfile` and `ParseActivityAthlete` have no lemmas of their own.
  Their contracts say when the field is absent, and they are covered
  inside the athlete and activity lemmas.

### How the model is built

- Distances are integer metres. Times are integer milliseconds.
- The calendar functions are abstract parameters (`Time.Calendar`):
  date parsing, UTC year, UTC month and end of the local day. So are the
  clock (`Time.Clock`) and zod's datetime and URL checks
  (`RunnerSchema.Formats`).
- The store and Strava are deterministic:
  - a `Store.Faults` table says which store operation fails, and with
    which message;
  - a `Gateway.Oracle` says what Strava answers.
- Each stateful method is proved equal to a specification function,
  such as `Auth.GarantirTokenValidoSpec` or `Sync.SincronizarTudoSpec`.
  That function returns the result, the new tables and the Strava calls
  made. The properties are lemmas about these functions.

## Model

| member | source | states |
|---|---|---|
| Time.EpochSeconds | src/core/services/auth.ts:67 | `Math.floor(ms / 1000)`: the seconds `s` with `s*1000 <= ms < s*1000 + 1000` |
| Units.RoundKm | src/components/analytics.tsx:80 | `Math.round` of metres as kilometres: the result is within half a kilometre of the distance |
| Units.RoundKmPositive | src/components/analytics.tsx:118 | a rounded distance is positive exactly when it is at least 500 m |
| Json.NumberAt | src/core/domain/activity.ts:4 | `z.number()` on a key: succeeds exactly when the key holds a number, and returns it |
| Json.StringAt | src/core/domain/activity.ts:5 | `z.string()` on a key: succeeds exactly when the key holds a string, and returns it |
| Json.OptionalNumberAt | src/core/domain/activity.ts:19 | `z.number().optional()`: absent gives none; a number gives that very number; anything else fails |
| Json.NullishStringAt | src/core/domain/activity.ts:18 | `z.string().nullable().optional()`: absent, null and a string are the three accepted cases, and a string is returned as it stands |
| RunnerSchema.ParseProfile | src/core/domain/runner.ts:7 | `profile` may be absent, a URL or the literal placeholder; absent is recognised exactly |
| RunnerSchema.ParseAthlete | src/core/domain/runner.ts:3-8 | every athlete it accepts is valid |
| RunnerSchema.ParseTokenResponse | src/core/domain/runner.ts:10-17 | every token response it accepts is valid |
| RunnerSchema.AthleteRoundTrip | src/core/domain/runner.ts:3-8 | every valid athlete parses back from its JSON encoding |
| RunnerSchema.ParseAthleteSound | src/core/domain/runner.ts:3-8 | the encoding of a parsed athlete is embedded in the input; zod drops only the unknown keys |
| RunnerSchema.ParseAthleteAcceptsExtraKeys | src/core/domain/runner.ts:3-8 | zod strips unknown keys: an object holding a valid athlete's keys with their values, and no `profile` when the athlete has none, parses to that athlete whatever else it holds |
| RunnerSchema.TokenResponseRoundTrip | src/core/domain/runner.ts:10-17 | every valid token response parses back from its encoding |
| RunnerSchema.ParseTokenResponseSound | src/core/domain/runner.ts:10-17 | the encoding of a parsed token response, nested athlete included, is embedded in the input |
| RunnerSchema.ParseTokenResponseAcceptsExtraKeys | src/core/domain/runner.ts:10-17 | the same for a token response: extra keys at the top level or inside `athlete` are dropped and the response is recovered |
| RunnerSchema.TokenTypeMustBeBearer | src/core/domain/runner.ts:11 | a `token_type` other than `"Bearer"` is rejected |
| RunnerSchema.TokenResponseNeedsAthlete | src/core/domain/runner.ts:16 | a missing or invalid `athlete` is rejected |
| RunnerSchema.TokenResponseFieldTypes | src/core/domain/runner.ts:12-16 | an accepted response has numeric `expires_at` and `expires_in`, string tokens, and an athlete with a numeric id and string names |
| RunnerSchema.PlaceholderProfileAccepted | src/core/domain/runner.ts:7 | the literal `"avatar/athlete/large.png"` is accepted as a profile, URL or not |
| ActivitySchema.ParseRouteMap | src/core/domain/activity.ts:15-21 | an absent `map` is accepted as none, and only then |
| ActivitySchema.ParseActivityAthlete | src/core/domain/activity.ts:22-26 | an absent `athlete` is accepted as none, and only then |
| ActivitySchema.ParseActivity | src/core/domain/activity.ts:3-27 | every activity it accepts is valid; `type` is not restricted to "Run" |
| ActivitySchema.ParseActivities | src/infra/strava/gateway.ts:82 | `z.array(...)`: succeeds exactly with one parsed activity per item, in order; otherwise some item fails |
| ActivitySchema.RouteMapRoundTrip | src/core/domain/activity.ts:15-21 | every route map parses back from its encoding, null and absent polyline kept apart |
| ActivitySchema.RouteMapAcceptsExtraKeys | src/core/domain/activity.ts:15-21 | a `map` object holding a route map's keys, extra keys allowed, parses to that route map; a key the route map lacks must be absent, as null and absent differ |
| ActivitySchema.EncodedActivityFields | src/core/domain/activity.ts:3-27 | the encoding of an activity holds each required field under its key, with the optional objects as present |
| ActivitySchema.ParsedActivityFields | src/core/domain/activity.ts:3-27 | each field of a parsed activity was read from its own key of the input |
| ActivitySchema.ActivityRoundTrip | src/core/domain/activity.ts:3-27 | every valid activity parses back from its encoding |
| ActivitySchema.ParseActivitySound | src/core/domain/activity.ts:3-27 | the encoding of a parsed activity is embedded in the input |
| ActivitySchema.ParseActivityAcceptsExtraKeys | src/core/domain/activity.ts:3-27 | an object holding a valid activity's keys, with extra keys beside them or inside `map` and `athlete`, parses to that activity |
| ActivitySchema.ParseActivitiesAcceptsExtraKeys | src/infra/strava/gateway.ts:82 | `z.array(...)` over such objects recovers the whole list of activities, in order |
| ActivitySchema.ParseActivitiesAllOrNothing | src/infra/strava/gateway.ts:82 | the array parses exactly when every item does |
| ActivitySchema.ActivitiesRoundTrip | src/infra/strava/gateway.ts:82 | a list of valid activities parses back from its encodings |
| Store.LookupRunner | src/core/services/auth.ts:18-26 | `.single()` by `strava_id`: found exactly when there is no store fault and the key exists; a fault is a failure distinct from "no rows" |
| Store.ApplyPatch | src/core/services/auth.ts:38-44 | the update sets the credential columns, sets the name and avatar when given, and keeps the id and active flag |
| Store.UpdateRunnerRow | src/core/services/auth.ts:36-49 | `.update(...).eq("strava_id", id)`: on error nothing changes; otherwise only that runner's row is patched and no key is added |
| Store.RowsById | src/core/services/sync.ts:92 | the batch keyed by activity id: exactly the batch's ids, each with a row carrying that id |
| Store.UpsertActivityRows | src/core/services/sync.ts:84-96 | insert or overwrite by id, all or nothing: the batch's rows are stored, other rows are untouched, and nothing is deleted |
| Store.UpsertIdempotent | src/core/services/sync.ts:92 | upserting the same batch a second time changes nothing |
| Store.Database.SelectRunner | src/core/services/auth.ts:57-61 | the lookup answers as `LookupRunner` on the current tables |
| Store.Database.UpdateRunner | src/core/services/auth.ts:36-45 | the new tables and the error are those of `UpdateRunnerRow` |
| Store.Database.UpsertActivities | src/core/services/sync.ts:92 | the new tables and the error are those of `UpsertActivityRows` |
| Store.Database.SelectActiveRunners | src/core/services/sync.ts:30-33 | `.eq("esta_ativo", true)`: on success, exactly the active runners, each once |
| Gateway.ExchangeResult | src/infra/strava/gateway.ts:20-41 | the code exchange succeeds exactly on a delivered body that passes the token schema, and returns exactly what the schema parsed from that body; a rejection carries Strava's text behind the fixed prefix |
| Gateway.RefreshResult | src/infra/strava/gateway.ts:43-65 | the refresh succeeds exactly on a delivered body, whose credential is returned as it came, because the body is not validated; a rejection carries Strava's text behind the fixed prefix |
| Gateway.ActivitiesResult | src/infra/strava/gateway.ts:67-83 | the listing succeeds exactly on a delivered array that passes the activity schema, returns exactly the list the schema parsed from it, and every returned activity is valid |
| Gateway.StravaGateway.TrocarCodigoPorToken | src/infra/strava/gateway.ts:20-41 | answers `ExchangeResult`, so a success is the token schema's parse of the body, and logs one exchange call |
| Gateway.StravaGateway.AtualizarToken | src/infra/strava/gateway.ts:43-65 | answers `RefreshResult` and logs one refresh call |
| Gateway.StravaGateway.BuscarAtividades | src/infra/strava/gateway.ts:67-83 | answers `ActivitiesResult`, so a success is the activity schema's parse of the array, and logs one listing call with the token and cursor |
| Auth.MissingRunnerRejected | src/core/services/auth.ts:57-65 | a missing runner or a failed lookup throws, with no call and no write |
| Auth.FreshTokenReturnedUnchanged | src/core/services/auth.ts:67-70 | if `expira_em > agora + 300`, the stored token is returned, with no refresh and no write |
| Auth.StaleTokenRefreshedOnce | src/core/services/auth.ts:72-73 | otherwise exactly one refresh is made, with the stored refresh token |
| Auth.MarginIsStrict | src/core/services/auth.ts:68 | at exactly `expira_em == agora + 300` the token is refreshed |
| Auth.RefreshOverwritesCredentials | src/core/services/auth.ts:72-84 | a refresh overwrites the three credential columns of that runner only, and returns the new access token |
| Auth.RefreshFailureKeepsStore | src/core/services/auth.ts:85-88 | a failed refresh is rethrown and the store is unchanged |
| Auth.TokenCallTouchesOnlyCredentials | src/core/services/auth.ts:54-89 | in every case only the credential columns of the given runner can change |
| Auth.RefreshedTokenIsFresh | src/core/services/auth.ts:67-84 | after a stored refresh to a token valid beyond the margin, a second call at the same time makes no call and returns it |
| Auth.IgnoredUpdateErrorKeepsOldCredentials | src/core/services/auth.ts:75-84 | the update's error is ignored: the new token is returned while the store keeps the old credentials |
| Auth.LoginNeverCreatesRunners | src/core/services/auth.ts:28-45 | login never adds or removes a runner and never touches activities |
| Auth.LoginDeniedForUnknownAthlete | src/core/services/auth.ts:28-32 | an athlete who is not registered gets "access denied" and nothing is written |
| Auth.LoginSucceedsIff | src/core/services/auth.ts:12-51 | login succeeds exactly when the exchange, the lookup and the update succeed; on failure nothing is written; one exchange call is made |
| Auth.LoginStoreErrors | src/core/services/auth.ts:24-49 | a lookup error (other than "no rows") or an update error is thrown with its own prefix |
| Auth.LoginSuccessUpdatesProfile | src/core/services/auth.ts:36-51 | a successful login sets the credentials, `nome = firstname + " " + lastname` and the avatar when sent, for that athlete only, and returns `sucesso: true` with the athlete |
| Auth.StepsKeepKeys | src/core/services/auth.ts:36-45 | token checks and logins keep every runner row under its own `strava_id` |
| Auth.GarantirTokenValidoSpec | src/core/services/auth.ts:54-89 | `garantirTokenValido` as a function of the tables, the faults, Strava's answers and the clock: result, new tables and calls; stated through `MissingRunnerRejected`, `FreshTokenReturnedUnchanged`, `StaleTokenRefreshedOnce`, `RefreshOverwritesCredentials`, `RefreshFailureKeepsStore` and `TokenCallTouchesOnlyCredentials` |
| Auth.LoginComStravaSpec | src/core/services/auth.ts:12-52 | `loginComStrava` as a function of the same inputs; stated through `LoginSucceedsIff`, `LoginDeniedForUnknownAthlete`, `LoginStoreErrors`, `LoginSuccessUpdatesProfile` and `LoginNeverCreatesRunners` |
| Auth.AuthService.GarantirTokenValido | src/core/services/auth.ts:54-89 | result, new tables and Strava calls are those of `GarantirTokenValidoSpec` |
| Auth.AuthService.LoginComStrava | src/core/services/auth.ts:12-52 | result, new tables and Strava calls are those of `LoginComStravaSpec` |
| Sync.RunsOf | src/core/services/sync.ts:78 | keeps exactly the activities of type "Run" |
| Sync.RowsOf | src/core/services/sync.ts:84-90 | one row per run, in order, attributed to the runner |
| Sync.RunnerSyncWrites | src/core/services/sync.ts:68-101 | one runner's sync changes only its own credentials and writes only "Run" rows attributed to it; nothing is deleted |
| Sync.SyncedRunsStored | src/core/services/sync.ts:78-92 | a fulfilled sync has stored every listed run as that runner's row |
| Sync.ListingUsesValidToken | src/core/services/sync.ts:70-76 | activities are listed with the token step's token, from the start of the local year in seconds |
| Sync.TokenFailureStopsSync | src/core/services/sync.ts:97-100 | a token error is rethrown before any listing |
| Sync.CountsAddUp | src/core/services/sync.ts:52-53 | fulfilled plus rejected is the number of outcomes; all are fulfilled exactly when every outcome succeeded |
| Sync.SyncAllPrefix | src/core/services/sync.ts:48-50 | syncing a prefix of the runners gives the prefix of the outcomes |
| Sync.SyncOutcomeAt | src/core/services/sync.ts:48-50 | runner `i` is attempted whatever the earlier runners' outcomes, and its outcome is recorded at index `i` |
| Sync.SyncAllWrites | src/core/services/sync.ts:48-50 | a full sync adds no runner and deletes no row; each row it writes is a run of a listed runner |
| Sync.BuildReportAccounts | src/core/services/sync.ts:52-65 | `sucessos` is the number of runners whose sync was fulfilled and `falhas` the number rejected, and they add up to `total`; the details follow the listing order, with an `erro` exactly for the failed ones |
| Sync.ReportAccounts | src/core/services/sync.ts:48-65 | for a non-empty listing, `total` is the number of runners, `sucessos` and `falhas` count exactly the fulfilled and the rejected runners, and the details match each runner's outcome |
| Sync.CountsAreIndexSets | src/core/services/sync.ts:52-53 | the two `filter(...).length` counts are the numbers of positions that settled fulfilled and rejected |
| Sync.NoRunsNoWrite | src/core/services/sync.ts:78-82 | a listing without runs ends the sync successfully with no write, even when an upsert would fail |
| Sync.NothingToSync | src/core/services/sync.ts:39-46 | no active runner: the empty report, with no call and no write |
| Sync.SelectFailureStopsAll | src/core/services/sync.ts:35-37 | a failed listing of the runners throws before any runner is synced |
| Sync.SincronizarCorredorSpec | src/core/services/sync.ts:68-101 | `sincronizarCorredor` as a function: token step, listing from the start of the local year, the runs upserted; stated through `RunnerSyncWrites`, `SyncedRunsStored`, `ListingUsesValidToken`, `TokenFailureStopsSync` and `NoRunsNoWrite` |
| Sync.SyncAll | src/core/services/sync.ts:48-50 | the runners synced one after the other: one outcome per runner; see `SyncAllPrefix`, `SyncOutcomeAt` and `SyncAllWrites` |
| Sync.BuildReport | src/core/services/sync.ts:39-65 | the report of `sincronizarTudo`; stated through `BuildReportAccounts` and `NothingToSync` |
| Sync.SincronizarTudoSpec | src/core/services/sync.ts:29-66 | `sincronizarTudo` as a function of the listing; stated through `ReportAccounts`, `NothingToSync` and `SelectFailureStopsAll` |
| Sync.SyncService.SincronizarCorredor | src/core/services/sync.ts:68-101 | result, new tables and calls are those of `SincronizarCorredorSpec` |
| Sync.SyncService.SyncInOrder | src/core/services/sync.ts:48-50 | the outcomes, tables and calls are those of the sequential fold `SyncAll` |
| Sync.SyncService.SincronizarTudo | src/core/services/sync.ts:29-66 | the listing is the active runners, and the result, tables and calls are those of `SincronizarTudoSpec` |
| Seqs.Filter | src/lib/data.ts:52-61 | keeps exactly the elements satisfying the predicate |
| Seqs.FilterMultiplicity | src/lib/data.ts:52-61 | a kept element occurs as often as in the input, a dropped one not at all |
| Seqs.FilterSubsequence | src/lib/data.ts:52-61 | the filtered list is a subsequence of the original, in its order |
| Seqs.SortDesc | src/lib/data.ts:73 | the sort is a permutation of its input |
| Seqs.SortDescSorted | src/lib/data.ts:73 | the sort is non-increasing by key |
| Seqs.SortDescStable | src/lib/data.ts:73 | elements with equal keys keep their original order |
| Seqs.SortDescSameElements | src/lib/data.ts:73 | each input element is in the output, and each output element came from the input |
| Ranking.WindowOf | src/lib/data.ts:43-48 | the date range exactly when both bounds are given, ending at the end of the end's local day; used by `ItemCountsPeriod` |
| Ranking.ItemOf | src/lib/data.ts:50-72 | one runner's filtered activities and their summed distance; stated through `ItemCountsPeriod` |
| Ranking.GetRankingData | src/lib/data.ts:19-76 | `getRankingData`; stated through `QueryErrorGivesEmpty`, `RankingOrdersEveryRunner`, `RankingHasEveryRunner` and `RankingHasOnlyRunners` |
| Ranking.ItemsOf | src/lib/data.ts:50-72 | one item per fetched runner, in order |
| Ranking.ItemCountsPeriod | src/lib/data.ts:43-70 | with both bounds, an activity is kept exactly when it falls between the start and the end of the end's day; otherwise exactly when its UTC year is `year`; each kept activity occurs as often as in the runner's list; kept activities keep their order and the total is their sum |
| Ranking.QueryErrorGivesEmpty | src/lib/data.ts:38-41 | a query error gives the empty ranking |
| Ranking.RankingOrdersEveryRunner | src/lib/data.ts:50-73 | one entry per runner, zero totals included, a permutation of the items, non-increasing by total, ties in query order |
| Ranking.RankingHasEveryRunner | src/lib/data.ts:50-73 | every fetched runner's item is in the ranking |
| Ranking.RankingHasOnlyRunners | src/lib/data.ts:50-73 | every ranking entry is the item of a fetched runner |
| Ranking.ListItemsOf | src/components/ranking-list.tsx:54-70 | one table entry per fetched runner, in order |
| Ranking.YearTotal | src/components/ranking-list.tsx:56-64 | the table's `reduce` over a runner's activities; stated through `YearTotalIsSum` |
| Ranking.RankingListView | src/components/ranking-list.tsx:45-141 | what `RankingList` shows; stated through `RankingListCases` and `PositionRule` |
| Ranking.YearTotalIsSum | src/components/ranking-list.tsx:56-64 | the reduce adds exactly the distances of the activities of UTC year `year` |
| Ranking.ListTotalsAgree | src/components/ranking-list.tsx:56-64 | the table's total equals `getRankingData`'s total without a date range |
| Ranking.PositionRule | src/components/ranking-list.tsx:86-124 | position is index + 1; the crown for 1, medals for 2 and 3, `#n` otherwise; the "Top n" badge exactly for positions up to 3 |
| Ranking.RankingListCases | src/components/ranking-list.tsx:45-141 | a query error shows only the error; otherwise every runner once in non-increasing order, with the "no data for year" row exactly when there are none |
| Analytics.MonthlyDistance | src/components/analytics.tsx:68-76 | slot `m` holds the summed distance of the activities of UTC month `m` |
| Analytics.MonthsCoverAll | src/components/analytics.tsx:68-76 | every activity lands in exactly one month: the slots add up to the total distance |
| Analytics.MonthlyAddsUp | src/components/analytics.tsx:68-76 | the twelve slots add up to the distance of all activities |
| Analytics.RadarData | src/components/analytics.tsx:78-81 | twelve points, each month's name with its rounded slot |
| Analytics.FirstMaxIndex | src/components/analytics.tsx:154-157 | the reduce yields an index of the maximum, and no earlier slot reaches it |
| Analytics.MaxMonthIndex | src/components/analytics.tsx:154-157 | the smallest index of the largest slot; 0 for no slots |
| Analytics.BucketOf | src/components/analytics.tsx:101-107 | each distance is in exactly one band, with inclusive upper bounds 3, 5, 10, 21 and 42 km, else "Ultra" |
| Analytics.OneBandPerActivity | src/components/analytics.tsx:101-107 | an activity's shares of the six bands add up to its distance |
| Analytics.ClassifyDistances | src/components/analytics.tsx:90-109 | each band holds the summed distance of the activities in it |
| Analytics.BucketsCoverAll | src/components/analytics.tsx:99-109 | the bands add up to the total distance |
| Analytics.AllSlices | src/components/analytics.tsx:111-117 | the six slices in band order, each with its label and rounded band |
| Analytics.PieKeepsVisibleBands | src/components/analytics.tsx:111-118 | the pie is a subsequence of the six slices, every kept slice is positive, and every band of at least 500 m is kept |
| Analytics.PieData | src/components/analytics.tsx:111-118 | the pie without its empty slices; stated through `PieKeepsVisibleBands` |
| Analytics.PieTotalIsBandTotal | src/components/analytics.tsx:150-152 | the pie's total equals the total of all six rounded bands |
| Analytics.Top3 | src/components/analytics.tsx:159 | the prefix of length min(3, n) |
| Analytics.FirstWord | src/components/analytics.tsx:179 | `split(" ")[0]`: the longest prefix without a space |
| Analytics.RunnerMonthDistance | src/components/analytics.tsx:164-170 | a runner's summed distance in month `m` |
| Analytics.AreaChartData | src/components/analytics.tsx:160-174 | twelve points; each runner's value is the rounded sum of their activities in that month |
| Analytics.DashboardOf | src/components/analytics.tsx:68-186 | the whole dashboard of a non-empty ranking; stated through `RenderAnalytics` and the lemmas of its parts |
| Analytics.RenderAnalytics | src/components/analytics.tsx:68-186 | nothing for an empty ranking; otherwise the dashboard of these specifications |
| Routes.ExpectedVerifyToken | src/app/api/webhook/strava/route.ts:11 | the configured token, or `"STRAVA"` when it is unset or empty |
| Routes.WebhookGet | src/app/api/webhook/strava/route.ts:4-19 | the handshake handler; stated through `HandshakeRule` |
| Routes.HandshakeRule | src/app/api/webhook/strava/route.ts:4-19 | the challenge is echoed exactly for mode "subscribe" with the expected token; anything else is 403 |
| Routes.WebhookPost | src/app/api/webhook/strava/route.ts:21-48 | the event receipt handler; stated through `WebhookAlwaysAccepts` |
| Routes.WebhookAlwaysAccepts | src/app/api/webhook/strava/route.ts:21-48 | always 200; "processed" exactly when the body parsed and processing completed, else "error_handled"; the processor runs once per parsed event |
| Routes.UnsetSecretOpensGate | src/app/api/cron/sync/route.ts:5-8 | the gate as written admits "Bearer undefined" when no secret is set |
| Routes.UnsetSecretRunsSync | src/app/api/cron/sync/route.ts:4-19 | with no secret set, the handler as written runs the sync for "Bearer undefined" and answers 200 with the whole report; behind the corrected gate the same request gets 401 and no sync |
| Routes.CronGateSound | src/app/api/cron/sync/route.ts:5-8 | the corrected gate admits only "Bearer " + a configured non-empty secret, and agrees with the code whenever one is set |
| Routes.ReportRoundTrip | src/app/api/cron/sync/route.ts:14 | the JSON body carries the whole report |
| Routes.CronSync | src/app/api/cron/sync/route.ts:4-19 | the cron handler behind the corrected gate; stated through `CronRule` |
| Routes.CronSyncAsWritten | src/app/api/cron/sync/route.ts:4-19 | the cron handler behind the gate as written; stated through `UnsetSecretRunsSync` |
| Routes.CronRule | src/app/api/cron/sync/route.ts:4-19 | the gate comes first: 401 and no sync when refused; otherwise the report unchanged, or 500 with a fixed message on any error |
| Routes.AuthCallback | src/app/api/auth/callback/route.ts:4-29 | the callback handler; stated through `CallbackGuards` and `CallbackLoginOutcome` |
| Routes.CallbackGuards | src/app/api/auth/callback/route.ts:9-15 | a provider error wins and skips login; then a missing code; only then is login attempted, with the code |
| Routes.CallbackLoginOutcome | src/app/api/auth/callback/route.ts:17-28 | success redirect exactly when login completes; otherwise the encoded message, "Erro desconhecido" for a non-`Error` |
| Routes.Utf8 | src/app/api/auth/callback/route.ts:26 | the UTF-8 bytes of a code point: one, two, three or four bytes by its range, with the lead byte in its range and continuation bytes 0x80 to 0xBF; the payload bits put back together are the code point |
| Routes.HexDigit | src/app/api/auth/callback/route.ts:26 | an upper-case hexadecimal digit that reads back as its value |
| Routes.PercentEncode | src/app/api/auth/callback/route.ts:26 | byte `i` becomes `%`, its high hex digit and its low hex digit, at positions `3i` to `3i+2` |
| Routes.EncodeUriComponentSafe | src/app/api/auth/callback/route.ts:26 | the encoding has only unreserved characters and `%`, so the message stays one query value |
| Routes.EncodeUriComponentKeepsUnreserved | src/app/api/auth/callback/route.ts:26 | unreserved text is unchanged |
| Routes.EncodeUriComponent | src/app/api/auth/callback/route.ts:26 | `encodeURIComponent`: unreserved characters kept, every other one as the `%XY` triplets of its UTF-8 bytes; its properties are `EncodeUriComponentSafe`, `EncodeUriComponentKeepsUnreserved`, `DecodeEncodeUriComponent` and `EncodeUriComponentInjective` |
| Routes.PctByteOfEncoding | src/app/api/auth/callback/route.ts:26 | each `%XY` triplet of a percent-encoding reads back as its byte |
| Routes.DecodeSequenceOfChar | src/app/api/auth/callback/route.ts:26 | the triplets of a character's UTF-8 bytes decode to that character and nothing more |
| Routes.DecodeEncodedChar | src/app/api/auth/callback/route.ts:26 | decoding an encoded character followed by anything gives the character followed by the decoding of the rest |
| Routes.DecodeEncodeUriComponent | src/app/api/auth/callback/route.ts:26 | `decodeURIComponent(encodeURIComponent(s)) == s` for every string: the redirect carries the message exactly |
| Routes.EncodeUriComponentInjective | src/app/api/auth/callback/route.ts:26 | distinct messages give distinct redirect targets |

## Left out

- Real I/O: HTTP to Strava and to Supabase. They are the `Gateway.Oracle` and the `Store.Faults` table, so a given request always gets the same answer.
- The 200-per-page limit of the activity listing: only one page is fetched, and the page size is an I/O detail.
- Construction of clients and environment reads: the Supabase and Strava clients, the service-role-key and client-credential checks, and their throws. These are configuration.
- The concurrency of `Promise.allSettled`: the runners are synced one after the other. The runners are independent, so this order is one of the possible interleavings.
- Time passing between calls: `Date.now()` and the start of the local year are fixed per sync, in the `Time.Clock` parameter.
- The calendar: date parsing, `getUTCFullYear`, `getUTCMonth` and `setHours(23, 59, 59, 999)` are abstract functions. So is an invalid date, which the source compares as NaN.
- zod's datetime and URL syntax checks: abstract predicates.
- Floating point: distances stay in integer metres. `/ 1000`, `Math.round` and `toFixed` are rounding of metres to kilometres (`Units.RoundKm`), or are left out where the order does not change. Float error in the summed kilometres is not modelled.
- `processarEventoWebhook`: it is not defined in `src/core/services/sync.ts`. It is the parameter `processorCompletes`, whose result says whether it completes or throws.
- Deletion: the sync never deletes an activity row, so the model has no delete.
- The listing window: it always starts on 1 January of the current local year (`Time.Clock.localYearStartMs`), so there is no other window.
- Runner creation: login only updates a runner who is already registered, and refuses any other athlete.
- Error wrapping: errors are rethrown as they are, without the runner's id.
- Fetching a single activity: no code in `src/core/services/sync.ts` does it, so there is nothing to model.
- Gateway.RefreshResult: a 2xx refresh body is assumed to carry `access_token`, `refresh_token` and `expires_at` with their types; a malformed body is not modelled. The source casts the body without a schema (src/infra/strava/gateway.ts:62-64).
- Logging and `console.error`.
- `String(err)` for a rejected runner: every error is rendered as `"Error: " + message`. Errors of other classes (a `ZodError`, a `TypeError`) would print another name.
- The resolution of redirect targets against the request URL: a redirect carries its relative reference.
- `encodeURIComponent` on lone surrogates: it throws `URIError` in the source. Dafny's `char` is a Unicode scalar value, so a lone surrogate cannot occur.
- The rows the ranking queries return: only active runners with an avatar are returned. The query's result is a parameter.
- Rendering: chart colours and configuration, the avatar fallback's two upper-case letters, the kilometre formatting, and markup.
- The UI components and `src/app/auth/login/route.ts`, which only build URLs and render.
- Store.Database.SelectActiveRunners: the order of the active runners is chosen by the store. It is a ghost listing, not a particular order.
- CronSync calls the corrected gate `CronGate`; the handler as written is `CronSyncAsWritten`, beside it (see Findings).

## Findings

| source | as written | input that shows it | evidently intended | confidence | as-written member | corrected member |
|---|---|---|---|---|---|---|
| src/app/api/cron/sync/route.ts:5-8 | the header is compared with `` `Bearer ${process.env.CRON_SECRET}` ``, which is "Bearer undefined" when the secret is unset | no `CRON_SECRET`, header `authorization: Bearer undefined`: admitted, and the full sync runs | only a configured, non-empty secret opens the gate | not executed | Routes.UnsetSecretRunsSync | Routes.CronGateSound |
