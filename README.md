# Auto-sync registry, dashboard helpers and sync-log query of the Sankhya sync screens

This Dafny project models the client-side logic of two administration
dashboards: "Sincronização de Parceiros" (partners) and "Sincronização de
Tipos de Negociação" (trade types). It also models the server route that
serves the synchronisation log. The engine that compares ERP records with the
local copy lives behind `/api/sync/parceiros`, `/api/sync/tipos-negociacao`
and the log service `@/lib/sync-logs-service`. That code is not part of this
model.

What is modelled:

- **The per-tenant auto-sync registry** (module `AutoSync`).
  - Both pages keep a map from system id (`idSistema`) to an entry
    `{enabled, intervalMinutes, intervalId?, nextSyncTime?}`.
  - Enabling arms a `setInterval` timer. Disabling clears it. Changing the
    interval re-arms the timer only when the entry is enabled and holds one.
  - The registry is a class, `AutoSync.Registry`. Its fields are the entry
    map, the live timers (handle → tenant and period in ms) and the counter
    that `setInterval` draws handles from.
  - Each handler is proved against a pure transition function on
    `RegistryState` (`Toggled`, `IntervalChanged`).
  - Two invariants are proved for those functions:
    - `Consistent`: an entry is Disabled (no handle, no next time) or Armed
      (a live timer for that tenant, with that entry's interval).
    - `NoOrphans`: every live timer is the one its tenant's entry holds.
      Together with `Consistent` this gives "at most one live timer per
      tenant".
  - `NoOrphans` survives every interval change. It survives a toggle only
    when the toggle does not enable an entry that is already enabled:
    enabling never clears the handle the entry already holds. The page's
    switch only sends "enable" while the entry shows as off (`FlipSwitch`).
  - The two pages share the handlers. They differ in two ways (module
    `Pages`):
    - the interval given to a tenant without an entry: 30 minutes for
      partners, 60 for trade types;
    - when the effect cleanup runs. On the partners page the effect has an
      empty dependency list (page.tsx:98-107), so it runs only on unmount.
      On the trade-types page it depends on the map (page 2:97-105), so it
      runs after every update. It then clears every handle held in the map
      the handler has just written into, including the one just armed
      (`AutoSync.CleanedUp`, `AutoSync.EnableUndoneByCleanup`). `Consistent`
      is proved of the handlers alone; on the trade-types page it holds only
      until that cleanup runs. The handler methods take any state, so the
      page's later calls are modelled too (`Pages.FlipTwice`).
  - Rows below that cite the partners page describe the same lines of the
    trade-types page: 228-319 for the handlers, 114 for the filter, 120-123
    for the statistics map, 156-157 for the tallies. "Page 2" is
    app/dashboard/sincronizacao-tipos-negociacao/page.tsx.
- **Pure page helpers** (module `Dashboard`):
  - the active-contract filter;
  - the success/failure tally of a "sync all" result list;
  - the statistics index, where the last stat for an id wins (the `forEach`
    loop is a method with a loop invariant);
  - the contract lookup the timer callback performs;
  - the duration formatter `formatarDuracao`.
- **Decimal text and `parseInt`** (module `Decimal`). The text `${n}` writes
  for an integer, and JavaScript's `parseInt`: leading white space skipped,
  an optional sign, then the longest run of digits, or NaN when there is no
  digit.
- **The log route's GET** (module `LogsRoute`).
  - The query string becomes one of two service calls: statistics, or a list
    with `limit`/`offset`.
  - The filter record is built field by field.
  - Any thrown error becomes a 500 response.
  - The service itself is a function passed in. `new Date(text)` is kept
    uninterpreted as `DateOf(text)`.

Time is whole minutes, passed in as `now`. Timer handles are abstract
numbers. I/O (fetch, toasts, navigation, the role check) is not modelled.

Notes on the code, each stated by a member:

- Enabling does not clear a handle the entry already holds
  (app/dashboard/sincronizacao/page.tsx:239-261). Applied to an enabled
  entry it leaves two live timers for the tenant
  (`AutoSync.EnableWhileEnabledLeaksTimer`). The dialog's switch only sends
  "enable" while the entry shows as off (page.tsx:559-565).
- The timer is one repeating `setInterval` (page.tsx:243-249). Nothing
  re-arms it after a run, and its callback does not update `nextSyncTime`.
- The handlers do not check the interval (page.tsx:291-331). The dialog
  only offers 15 to 1440 minutes (page.tsx:579-588), so the model accepts
  any integer.
- On the trade-types page, the effect cleanup stops every timer after each
  update (see above and "## Findings").

## Model

| member | source | states |
|---|---|---|
| `Decimal.IntToString` | app/dashboard/sincronizacao/page.tsx:341-344 | The text `${n}` for an integer: non-empty, a minus sign first iff n < 0, and digits everywhere else. There is no leading zero: text starting with `0` is exactly `0`, and a minus sign is never followed by `0`. `IntToStringRoundTrip` reads it back as n. |
| `Decimal.IntToStringRoundTrip` | app/dashboard/sincronizacao/page.tsx:341-344 | The text written for any integer (as in `${segundos}s`) reads back as exactly that integer. |
| `Decimal.IntToStringInjective` | app/dashboard/sincronizacao/page.tsx:341-344 | Two integers shown as the same text are equal. |
| `Decimal.ParseIntPrefixOfIntToString` | app/api/sync/logs/route.ts:32-33 | `parseInt` reads back `${n}` as n, also when non-digit text follows (partial parse). |
| `Decimal.ParseIntPrefix` | app/api/sync/logs/route.ts:18 | `parseInt` of any text: after the leading JavaScript white space, an optional `+` or `-`, then the longest run of digits, read with the sign. The result is a number iff at least one digit follows the sign, and NaN otherwise. |
| `Decimal.LeadingWhiteSpaceSkipped` | app/api/sync/logs/route.ts:32-33 | White space in front of the text does not change what `parseInt` reads. |
| `Decimal.ParseIntPrefixNaN` | app/api/sync/logs/route.ts:37 | `parseInt` of empty text, or of text starting with neither white space, nor a digit, nor a sign, is NaN. With `LeadingWhiteSpaceSkipped` this also covers text that has white space before such a start. |
| `Dashboard.ActiveContracts` | app/dashboard/sincronizacao/page.tsx:117 | The kept contracts are exactly those of the input with `ATIVO` true, and there are no more of them than in the input. |
| `Dashboard.ActiveContractsAppend` | app/dashboard/sincronizacao/page.tsx:117 | Filtering a concatenation is the concatenation of the filtered parts, so input order is kept. |
| `Dashboard.ActiveContractsIdempotent` | app/dashboard/sincronizacao-tipos-negociacao/page.tsx:114 | Filtering an already filtered list changes nothing. |
| `Dashboard.Succeeded` | app/dashboard/sincronizacao/page.tsx:160 | The kept results are exactly those with `success` true. |
| `Dashboard.Failed` | app/dashboard/sincronizacao/page.tsx:161 | The kept results are exactly those with `success` false. |
| `Dashboard.SucceededFailedPartition` | app/dashboard/sincronizacao/page.tsx:160-161 | Successes plus failures equals the number of results. |
| `Dashboard.TallyResults` | app/dashboard/sincronizacao-tipos-negociacao/page.tsx:156-157 | The success count is the number of positions holding a successful result, and the failure count the number holding a failed one. The counts add up to the list length. There are no failures iff every result succeeded, and no successes iff every result failed. |
| `Dashboard.SucceededCountsSuccesses` | app/dashboard/sincronizacao/page.tsx:160 | The success filter has exactly as many elements as there are positions with a successful result. |
| `Dashboard.FailedCountsFailures` | app/dashboard/sincronizacao/page.tsx:161 | The failure filter has exactly as many elements as there are positions with a failed result. |
| `Dashboard.SucceededAppend` | app/dashboard/sincronizacao/page.tsx:160 | The success filter of a concatenation is the concatenation of the parts' success filters. |
| `Dashboard.FailedAppend` | app/dashboard/sincronizacao/page.tsx:161 | The failure filter of a concatenation is the concatenation of the parts' failure filters. |
| `Dashboard.TallyAppend` | app/dashboard/sincronizacao/page.tsx:160-161 | The tallies of consecutive result lists add up. |
| `Dashboard.LastIndexWithId` | app/dashboard/sincronizacao/page.tsx:124-127 | Reference definition: the position of the last stat with a given id, or -1 when no stat has that id. |
| `Dashboard.StatsIndexLastWins` | app/dashboard/sincronizacao/page.tsx:124-127 | An id is in the statistics map iff some stat carries it, and it maps to the last stat carrying it. |
| `Dashboard.BuildStatsIndex` | app/dashboard/sincronizacao-tipos-negociacao/page.tsx:120-123 | The `forEach` loop builds the map that sets each stat in order. Its keys are exactly the ids in the list. |
| `Dashboard.FirstContractIndex` | app/dashboard/sincronizacao/page.tsx:245 | `find` gives the first contract with the id, or nothing when no contract has it. |
| `Dashboard.FormatDuration` | app/dashboard/sincronizacao/page.tsx:339-345 | The text ends in `s`. It has a minutes part (`m`) iff the whole seconds are 60 or more, and a minus sign iff `ms` is negative. |
| `Dashboard.FormatDurationReadsBack` | app/dashboard/sincronizacao/page.tsx:339-345 | The formatted duration always reads back as `floor(ms/1000)` seconds. It is plain seconds iff that is below 60. Otherwise it is minutes ≥ 1 with a seconds part in [0, 60) and minutes*60+seconds = `floor(ms/1000)`. |
| `AutoSync.LiveTimersAreStoredHandle` | app/dashboard/sincronizacao/page.tsx:232-331 | Under both invariants, a tenant's live timers are exactly the handle its entry holds. That is at most one timer, and exactly one iff the entry is enabled. |
| `AutoSync.Toggled` | app/dashboard/sincronizacao/page.tsx:232-289 | Only the target entry is written, and the interval is kept. Enable: enabled, a fresh handle with period interval*60*1000 ms, next time now+interval, no timer cleared. Disable: the held handle leaves the live set and every other timer is unchanged. The entry has no handle and no next time. |
| `AutoSync.ToggledConsistent` | app/dashboard/sincronizacao/page.tsx:239-281 | A toggle keeps every entry Disabled or Armed with its own live timer. |
| `AutoSync.ToggledKeepsNoOrphans` | app/dashboard/sincronizacao/page.tsx:239-281 | A toggle that does not enable an enabled entry keeps every live timer owned by its tenant's entry. |
| `AutoSync.EnableWhileEnabledLeaksTimer` | app/dashboard/sincronizacao/page.tsx:239-261 | Enabling an enabled entry leaves its old timer live and held by no entry. The tenant then has at least two live timers. |
| `AutoSync.IntervalChanged` | app/dashboard/sincronizacao/page.tsx:291-331 | Only the target entry is written, and its interval becomes the new one. If the entry is enabled and holds a handle: exactly that timer is cleared, exactly one is armed with the new period, and next time is now+new interval. Otherwise the timers, handle and next time are untouched. |
| `AutoSync.IntervalChangedConsistent` | app/dashboard/sincronizacao/page.tsx:298-330 | An interval change keeps every entry Disabled or Armed with its own live timer. |
| `AutoSync.IntervalChangedKeepsNoOrphans` | app/dashboard/sincronizacao/page.tsx:298-321 | An interval change never leaves a live timer that no entry holds. |
| `AutoSync.CleanedUp` | app/dashboard/sincronizacao-tipos-negociacao/page.tsx:97-105 | The cleanup keeps the entries. It stops exactly the live timers whose handle some entry holds, and leaves the others as they were. |
| `AutoSync.CleanupStopsEveryTimer` | app/dashboard/sincronizacao-tipos-negociacao/page.tsx:97-105 | When every live timer is held by its tenant's entry, the cleanup stops all of them. |
| `AutoSync.EnableUndoneByCleanup` | app/dashboard/sincronizacao-tipos-negociacao/page.tsx:97-105 | After switching an off entry on and the cleanup that follows on the trade-types page, the entry is enabled, but no live timer syncs the tenant, and the registry is not `Consistent`. |
| `AutoSync.UnconfiguredTenantUsesDefault` | app/dashboard/sincronizacao/page.tsx:232-237 | A tenant without an entry is handled as `{enabled: false, intervalMinutes: default}`, both by toggle and by interval change. |
| `AutoSync.OnTimerFire` | app/dashboard/sincronizacao-tipos-negociacao/page.tsx:238-243 | A fire starts a sync iff the tenant is in the captured contract list. The sync is for that tenant, under the name of the first matching contract. |
| `AutoSync.Registry.constructor` | app/dashboard/sincronizacao/page.tsx:85 | The registry starts with no entries and no timers, and satisfies both invariants. |
| `AutoSync.Registry.SetInterval` | app/dashboard/sincronizacao/page.tsx:243-249 | Returns a handle not handed out before and makes that timer live for the tenant. |
| `AutoSync.Registry.ClearInterval` | app/dashboard/sincronizacao/page.tsx:270-272 | Removes exactly that handle from the live timers. |
| `AutoSync.Registry.Toggle` | app/dashboard/sincronizacao-tipos-negociacao/page.tsx:228-280 | Callable in any state, including one the trade-types cleanup left behind. The new state is `Toggled` of the old one. A `Consistent` registry stays `Consistent`. `NoOrphans` is also kept unless an enabled entry is enabled again. |
| `AutoSync.Registry.ChangeInterval` | app/dashboard/sincronizacao-tipos-negociacao/page.tsx:282-319 | Callable in any state. The new state is `IntervalChanged` of the old one, and both invariants are kept when they held before. |
| `AutoSync.Registry.FlipSwitch` | app/dashboard/sincronizacao/page.tsx:559-565 | Callable in any state. The dialog's switch toggles to the opposite of the shown state. Used this way, both invariants are kept whenever they held before. |
| `AutoSync.Registry.CleanUp` | app/dashboard/sincronizacao-tipos-negociacao/page.tsx:97-105 | The new state is `CleanedUp` of the old one. |
| `Pages.NewPartnersRegistry` | app/dashboard/sincronizacao/page.tsx:232-237 | The partners page's registry: empty, with a 30-minute default interval. |
| `Pages.NewTradeTypesRegistry` | app/dashboard/sincronizacao-tipos-negociacao/page.tsx:228-233 | The trade-types page's registry: empty, with a 60-minute default interval. |
| `Pages.EnableThenChangeInterval` | app/dashboard/sincronizacao/page.tsx:239-321 | Enable at minute 0, then change the interval to 60 at minute 10: one live timer with a one-hour period, and the next sync at minute 70. |
| `Pages.FlipTwice` | app/dashboard/sincronizacao-tipos-negociacao/page.tsx:235-274 | The trade-types page as written, with the cleanup after each update: switching a new tenant on arms a one-hour timer. After the cleanup the entry still shows enabled, but no timer is live for the tenant. Switching the tenant off, with its cleanup, leaves no live timer and the entry disabled. |
| `Pages.FlipThenRerender` | app/dashboard/sincronizacao-tipos-negociacao/page.tsx:97-105 | On the trade-types page, switching a new tenant on and re-rendering leaves the entry enabled with no live timer. |
| `LogsRoute.DefaultLimitOffset` | app/api/sync/logs/route.ts:32-33 | The fallback texts parse as 100 and 0. |
| `LogsRoute.PlanQuery` | app/api/sync/logs/route.ts:9-43 | Stats mode iff `action` is exactly `stats`, and stats mode has no `tabela`/`status`. Each filter field is set iff its parameter is present and non-empty, with `tabela`/`status` verbatim. `limit`/`offset` are 100/0 when absent or empty, and otherwise `parseInt` of the parameter. |
| `LogsRoute.StatsFilterIsListFilterWithoutTableAndStatus` | app/api/sync/logs/route.ts:11-41 | The stats filter equals the list filter for the same parameters, with `tabela` and `status` dropped. |
| `LogsRoute.PagingRoundTrip` | app/api/sync/logs/route.ts:32-33 | A `limit` or `offset` written as `${n}` reaches the service as n. |
| `LogsRoute.Respond` | app/api/sync/logs/route.ts:46-51 | Status is 500 iff the service threw, and a success answers 200 with the service's value. The error text is the thrown message when that is present and non-empty. Otherwise it is exactly `Erro ao buscar logs de sincronização`. It is never empty. |
| `LogsRoute.HandleGet` | app/api/sync/logs/route.ts:5-53 | The handler answers 500 iff the service call it plans throws. When that call returns, the answer is 200 with the service's value. |

## Left out

- The reconciliation (insert/update/soft-delete) engine, the run orchestrator, its run lock, and the log store. They live behind `/api/sync/parceiros`, `/api/sync/tipos-negociacao` and `@/lib/sync-logs-service`, which are not part of this model.
- All I/O: `fetch`, `response.json`, `NextResponse`, toasts, `router.push`, and the administrator role check.
- Timer behaviour at run time. The model does not cover timers firing, async execution of `sincronizarEmpresa`, or the browser's clamping of delays that are non-positive or above 2^31-1 ms. Handles are abstract numbers in a live set.
- The partners page's effect cleanup (page.tsx:98-107). It runs only on unmount, and unmounting is outside this model. It clears the handles in the map of the first render, which the first handler call writes into.
- The trade-types page's cleanup is modelled as running once after each update, on the map the handler wrote into. The model does not cover React running it on unmount, or its timing relative to a timer that fires before the re-render.
- React state timing. Each handler is modelled as seeing the result of the previous one. In the page, a handler reads the map from the latest render, and updates it in place through `Map.set` before copying it.
- `AutoSync.OnTimerFire`: the contract list is a parameter. The page's callback reads the list captured when the timer was armed, and that list may be stale.
- `AutoSync.Toggled`: `nextSyncTime` is `now + interval` in whole minutes. `Date.setMinutes` details (seconds, daylight-saving shifts) are not modelled.
- `formatarData` (locale date formatting), `toISOString`, and the route's `new Date(text)`. These are library behaviour, so the dates are kept uninterpreted.
- `Decimal.IntToString`: writes every integer in plain decimal. JavaScript writes a number of magnitude 10^21 or more in exponent form (`1e+21`), and holds integers above 2^53 only approximately. So `IntToStringRoundTrip`, `ParseIntPrefixOfIntToString` and `LogsRoute.PagingRoundTrip` hold for the model's unbounded integers, and for JavaScript only below those bounds.
- `Decimal.ParseIntPrefix`: does not read the `0x` hexadecimal prefix that `parseInt` without a radix accepts, and does not lose precision beyond 2^53.
- `Dashboard.FormatDuration`: `ms` is a whole number. A fractional `ms` is not modelled. The page defines the formatter but does not call it.
- The UI button guards `syncingAll`/`syncingOne`, and all toast texts. They are rendering state.

## Findings

| source | as written | input that shows it | evidently intended | confidence | as-written member | corrected member |
|---|---|---|---|---|---|---|
| app/dashboard/sincronizacao-tipos-negociacao/page.tsx:97-105 | The effect that clears every held timer depends on the map, so it runs after every update. The handlers write the new entry into the captured map (page 2:255, 274, 310, 317) before copying it, so the cleanup clears the timer just armed. | Switch a tenant on in the dialog. The timer armed at page 2:238-243 is cleared at the next render, and the entry shows enabled with no timer behind it. | Clear timers only on unmount, as the partners page's empty dependency list does (page.tsx:98-107). The handlers alone keep each enabled entry backed by its own live timer. | medium, not executed | `AutoSync.EnableUndoneByCleanup` | `AutoSync.ToggledConsistent` |
