# ThinkEcoAPI session and cache — a Dafny model

This project models the client core of `homebridge-platform-smartac`. That core is the
`ThinkEcoAPI` object. It logs in to mymodlet.com, polls the SmartAC status page, and keeps a
cache of every thermostat of the account. It also pushes settings back. The model proves the
properties that make this object useful:

- the login throttle and the refresh throttle (two hours and two seconds, both strict `>`);
- how a refresh upserts the cache, and that it never deletes a record;
- what happens when a network step throws;
- what a push sends.

The model is functional. The API object is an immutable record `Api` (credentials, `lastLogin`,
`lastUpdate`, and a `Cache`). A `Cache` is a map from device id to `Thermostat` plus the
insertion order of its keys, because a JavaScript `Map` iterates in that order. Each operation
is a pure function. It takes:

- `now`, the clock reading at which its freshness comparison is made;
- the outcome of each network step it may perform (`LoginOutcome`, `FetchOutcome`,
  `PushOutcome`).

It returns a `Step`: the next state, the requests sent in order, and either the value the
promise resolves to or the step that rejected it. The state is returned on failure too. A login
that completed before a fetch threw has already moved `lastLogin`.

Modules:

- `Wrappers`: `Option`.
- `Decimal`: the decimal text `'' + n` produces for an integral target temperature, and a
  parser that reads it back.
- `Thermostats`: the `Thermostat` record, the scraped `ParsedEntry`, the four-field overwrite.
- `DeviceCache`: the cache, its invariant, `Upsert`, the whole-batch `ApplyBatch`, `Values`.
- `Network`: the requests (`LoginPost`, `StatusPost`, `SettingsPost`) and the abstract outcomes.
- `ThinkEcoApi`: constants, constructor, `Auth`, `GetThermostats`, `PushUpdate`, the power-mode
  setter, and the lemmas relating several calls.

`Cache.Valid()` (each key listed once in `order`, each record stored under its own id) is a
representation invariant of the model. It holds for the constructor's empty cache and every
operation preserves it. The `requires api.Valid()` clauses state that invariant; they place no
restriction on callers of the JavaScript code.

Facts about `index.js` that shape the model:

- `index.js` has no lock, so overlapping refreshes are not serialised. No lock is modelled.
- The mode setter at index.js:131 writes `powerOn` into the cached record before pushing.
  `SetTargetHeatingCoolingState` models that write.
- A refresh assigns four fields of a record and keeps the record and its id. With a record
  stored under its own id, the result is the record the entry describes (`DeviceCache.Upsert`
  proves this).
- No offline flags are scraped, so a record has none.

## Model

| member | source | states |
|---|---|---|
| ThinkEcoApi.Init | index.js:31-39 | a new API holds the credentials, an empty cache, and login and update stamps both equal to the time value of local midnight, 1 February 1970 (UTC midnight minus the local offset) |
| ThinkEcoApi.FreshApiIsStale | index.js:34-35 | for any UTC offset in use and any clock reading after 1970-02-01T14:00Z, the first `auth` logs in and the first `getThermostats` starts with a login |
| ThinkEcoApi.Auth | index.js:42-55 | a login is sent iff more than 2 h passed since the last one; after it returns `lastLogin` is the reading taken then, whatever the status; if it throws nothing changes; nothing but `lastLogin` ever changes |
| ThinkEcoApi.AuthIdempotentWithinWindow | index.js:42-53 | after a login returns at time `at`, an `auth` at most 2 h after `at` sends nothing and changes nothing |
| ThinkEcoApi.LoginBoundaryIsStrict | index.js:43 | with the 2 h constant of index.js:24 and the strict `>` of index.js:43, exactly 2 h after the last login no login is sent and the state is unchanged; 1 ms later a login is sent |
| ThinkEcoApi.GetThermostats | index.js:60-85 | within 2 s of the last update nothing is sent and the cache values come back unchanged; later it runs `auth` first (login only when more than 2 h passed, `lastLogin` exactly as `auth` leaves it) and sends the status POST only if `auth` did not throw; a throwing status POST or scrape fails the call; on failure cache and `lastUpdate` are unchanged; on success the result is the cache's values; keys are never lost |
| ThinkEcoApi.RefreshCommitsBatch | index.js:63-82 | a refresh whose login and fetch succeed sends the status POST last, applies the whole batch, has every batch id as a key, and stamps `lastUpdate` with the commit time |
| ThinkEcoApi.FailedFetchKeepsLogin | index.js:63-68 | a fetch that throws after a login keeps the new login stamp, leaves cache and `lastUpdate` untouched, and leaves the cache still due for refresh |
| ThinkEcoApi.SecondCallWithinWindowIsFree | index.js:61 | a call at most 2 s after a committed refresh sends nothing, changes nothing and returns the same records |
| ThinkEcoApi.SameBatchTwiceSameCache | index.js:70-81 | refreshing twice with the same scraped batch leaves the cache of a single refresh |
| ThinkEcoApi.PushUpdate | index.js:89-98 | auth always runs first; if it throws nothing else is sent; otherwise the settings POST carries id, decimal target and power flag, and the result is the reply's `Success`; cache and `lastUpdate` are unchanged |
| ThinkEcoApi.PushedCommandCarriesRecord | index.js:93-95 | the pushed `targetTemperature` text reads back as exactly the record's target, with the record's id and power flag |
| ThinkEcoApi.SetTargetHeatingCoolingState | index.js:129-133 | the cached record's `powerOn` becomes "mode is cooling", whatever the push outcome, and the rest of the step is `PushUpdate` of the updated record on the updated state; other fields and records, key order and `lastUpdate` are kept; the pushed command carries the new flag |
| Thermostats.NewThermostat | index.js:110-113 | a new record carries the given id; its other fields are placeholders that the same refresh step overwrites |
| Thermostats.Overwrite | index.js:77-80 | an overwrite keeps the record's id, and on a record with the entry's id yields the record the entry describes |
| DeviceCache.Empty | index.js:36 | the new map is empty and satisfies the cache invariant |
| DeviceCache.Upsert | index.js:71-80 | the key is present afterwards holding the record the entry describes; other records are unchanged; an unknown id is appended to the order and a known id leaves it as it was |
| DeviceCache.ApplyBatch | index.js:70-81 | a batch keeps the invariant and its keys are the old keys plus the batch's ids |
| DeviceCache.ApplyBatchRecords | index.js:70-81 | key by key: a key the batch mentions holds what its last entry describes; any other key keeps its record |
| DeviceCache.LaterEntryWins | index.js:72-80 | an entry with no later entry for the same id is what the cache holds for that id |
| DeviceCache.CacheNeverShrinks | index.js:70-82 | every previously known key survives a refresh, and keys the batch omits keep their records unchanged |
| DeviceCache.KnownIdsKeepOrder | index.js:72-76 | a batch of known ids creates no record and keeps the insertion order |
| DeviceCache.ApplyBatchOrder | index.js:72-76 | old keys keep their positions; after them come exactly the batch's new ids, each once, ordered by first sighting in the batch |
| DeviceCache.BatchIdempotent | index.js:70-81 | applying the same batch twice equals applying it once |
| DeviceCache.Values | index.js:84 | `values()` lists one record per key, following insertion order, each a record of the cache |
| DeviceCache.ValuesListEachRecordOnce | index.js:84 | every cached record appears in `values()` and no id appears twice |
| Decimal.IntToDecimal | index.js:94 | `'' + n` for an integral `n` of magnitude below 10^21 is non-empty, starts with `-` exactly for negative `n`, is otherwise digits, and has no leading zero (so `72` is sent as `"72"`) |
| Decimal.DecimalRoundTrip | index.js:94 | parsing the decimal text of `n` gives back `n` |
| Decimal.DecimalInjective | index.js:94 | distinct targets are sent as distinct texts |

## Left out

- HTML and JSON scraping (index.js:64-81): the cheerio selectors, `parseInt` of scraped text and `JSON.parse` of the quoted blob are foreign-library calls. A fetch is an abstract `FetchOutcome`: it threw, or it produced a `seq<ParsedEntry>`.
- A scraped id can be `undefined` and `parseInt` can yield `NaN`. Entries always carry a string id and integer temperatures, and `IntToDecimal` covers integers only (no `"NaN"`).
- Decimal.IntToDecimal: renders every `int` as plain decimal digits. JavaScript numbers are doubles: from 10^21 `'' + n` gives exponent form (`"1e+21"`), and integers past 2^53 cannot be held exactly. Both lie far outside thermostat temperatures.
- HTTP and session plumbing (index.js:2, 37, 45-52, 91-96): request-promise, the cookie jar and gzip are I/O. Each request is reduced to what is sent and an abstract outcome. Any non-boolean `Success` in a push reply is not modelled.
- Clock: the `Date.now()` reads at index.js:43 and 61 happen in the same synchronous segment and are modelled as one reading `now`. The later reads at index.js:53 and 82 are carried by the outcomes (`LoginReturned.at`, `Fetched.at`).
- DeviceCache.Values: JavaScript returns a live iterator over the map; the model returns a snapshot sequence taken at the moment of return.
- `toC` / `toF` and `setTargetTemperature` (index.js:101-107, 145-150): floating-point arithmetic with `Math.round`.
- Platform registration, `accessories`, `getServices` and the characteristic getters and callbacks (index.js:7-22, 119-127, 135-193): platform binding; the getters only call `getThermostats`. The setter's completion callback is not modelled.
- Concurrency: overlapping asynchronous `getThermostats` calls can both refresh, because there is no lock. That is not a sequential property, and no lock is modelled.
- Logging calls: no effect on the state.
