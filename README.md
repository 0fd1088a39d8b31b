# Precursor: shipment tracking, GPS simulation and reading anomalies in Dafny

Precursor tracks pharmaceutical shipments along a fixed route. This project models three parts of it.

- **The backend** (`precursor-backend/server.js`) keeps three SQLite tables:
  - *shipments*;
  - *events*, which are only ever appended;
  - a single *simulation* row, which holds the simulated truck's position, its off-route flag, its index on the six-waypoint Pune route, and the shipment being driven.

  Every five seconds a GPS step moves the truck to the next waypoint plus a small random jitter. The step also flags the truck off route when that jitter exceeds 0.3 km. It sets the active shipment's status, takes 0.01 kg off that shipment's weight, and logs a `GPS_UPDATE` event.

  Creating a shipment validates the request and inserts a `Pending` row. If the simulation is idle, the new shipment becomes the active one, `In Transit`, and the route restarts.

  A checkpoint scan logs a `CHECKPOINT_SCAN` event and can overwrite the shipment's weight.

  The read endpoints list shipments newest first, show one shipment with its events, report the simulation row, and list the 100 newest events.
- **The mobile front end's helpers** (`precursor-frontend/config/api.js`):
  - `formatStatus` maps stored statuses to display names;
  - `getStatusColor` maps display names to colours;
  - `calculateStats` computes the dashboard counters.
- **The anomaly-detection service** (`ML/backend/app.py`) processes one sensor reading at a time.
  - It keeps a sliding buffer of the last 30 readings per device.
  - It checks the temperature and humidity thresholds, and the distance to the nearest expected waypoint.
  - It combines an isolation forest and an LSTM autoencoder into an ensemble score, a risk label and a set of categories.
  - It pushes logged alerts to the front of a list capped at 200, which `GET /alerts` slices.

## How the model is organised

| file | module | contents |
|---|---|---|
| `wrappers.dfy` | `Wrappers` | `Option` |
| `geo.dfy` | `Geo` | coordinates and the type of a distance function |
| `ordering.dfy` | `Ordering` | `ORDER BY key DESC` and `LIMIT n` as a stable insertion sort with its properties |
| `ledger.dfy` | `Ledger` | the rows of the three tables as datatypes, the route and constants, and the pure parts of the handlers |
| `backend.dfy` | `Backend` | `class Database` (described below) |
| `status_display.dfy` | `StatusDisplay` | the api.js helpers, and the lookups as written (see Findings) |
| `detector.dfy` | `Detector` | the reading pipeline (described below) |

- **`Ledger`** holds:
  - the table keys and their invariants;
  - `UPDATE ... WHERE id = ?` as `UpdateWhere`;
  - one simulation tick without its writes;
  - request validation;
  - the read queries.
- **`Backend.Database`** owns the three tables as fields. Each handler is a method that performs the source's writes in the source's order. Its `ensures` gives the whole new state in terms of `Ledger` functions, and it keeps the invariant `Valid()`:
  - both primary keys hold;
  - every event and the active shipment refer to a stored shipment;
  - the route index is a waypoint index.
- **`Detector`** has two parts:
  - the pipeline's pure classification and its imperative counterparts, proved equal to it: the nearest-waypoint loop, the rule checks, the category list and the whole classification;
  - `class Service`, which owns `DEVICE_BUFFERS` and `ALERTS`.

These parts of the environment are parameters, and the methods that take them require only what the source guarantees:
- `Math.random()` is a `StepDraws` value in [0, 1).
- `randomUUID()` is an identifier that is not yet used.
- The clock is a `nat`. The ISO-8601 strings the backend stores sort in the same order as their instants.
- `haversineDistance` and `haversine_meters` are a `DistanceFn`.
- What the two ML models report on the current windows is a `ModelOutputs` value.

Behaviour of the code worth knowing:
- **Request validation.** POST /shipments rejects a missing or empty `productId`, `origin` or `destination`, and an absent `initialWeight`, with the message at server.js:208.
- **Jitter range.** server.js:132-133 computes the jitter as `(Math.random() - 0.5) * 0.002`, so it lies in the half-open range [-0.001, 0.001).
- **Seeding.** server.js seeds the simulation row once, in `initializeDatabase`, when the table has no row.
- **Event listing.** GET /events in server.js always returns at most 100 events (`LIMIT 100`).
- **Separate writes.** `simulateGPSStep` in server.js issues its three writes as separate statements, outside any transaction.
- **Missing temperature or humidity.** In app.py a reading without temperature or humidity raises in `float(None)`, at 160, before the `sensor_failure` rule at 167. The model returns `ConversionError` for it, leaving only the empty buffer that `setdefault` created. `NoSensorFailureWhenProcessed` states that the sensor-failure category is never produced.

## Model

| member | source | states |
|---|---|---|
| `Ledger.Lookup` | precursor-backend/server.js:271 | `SELECT * FROM shipments WHERE id = ?` finds a row exactly when the id is a stored key; the row found is a stored row with that id |
| `Ledger.Apply` | precursor-backend/server.js:150-155 | the three `SET` clauses. A tick sets `OFF_ROUTE` exactly when the flag is set, otherwise `In Transit`, and subtracts exactly 0.01 from the current weight. A claim sets `In Transit` and keeps the weight. A scan overwrites the weight and keeps the status. No other column changes |
| `Ledger.UpdateWhere` | precursor-backend/server.js:151-155 | `UPDATE shipments ... WHERE id = ?` updates every row with that id and leaves every other row as it was, in place |
| `Ledger.UpdateWhereKeepsKeys` | precursor-backend/server.js:151-155 | an update keeps the set of keys and the primary key |
| `Ledger.UpdateWhereAtKey` | precursor-backend/server.js:151-155 | under the primary key, reading the updated table by that id gives the old row with the update applied |
| `Ledger.AppendKeepsKeys` | precursor-backend/server.js:221-224 | inserting a row with a fresh id keeps the primary key and adds exactly that id |
| `Ledger.LookupAppended` | precursor-backend/server.js:239 | looking up a freshly inserted id returns the inserted row |
| `Ledger.AppendEventKeepsKeys` | precursor-backend/server.js:165-179 | appending an event with a fresh id that refers to a stored shipment keeps the event key and the foreign key |
| `Ledger.SeedSimulation` | precursor-backend/server.js:87-90 | the seeded row is at `AUTHORIZED_ROUTE[0]`, not off route, at index 0, with no active shipment, and satisfies the simulation invariant |
| `Ledger.NextIndex` | precursor-backend/server.js:128 | the next index is a waypoint index. It is `i + 1` before the last waypoint and 0 after it |
| `Ledger.Jitter` | precursor-backend/server.js:132-133 | each jitter is in [-0.001, 0.001) |
| `Ledger.SteppedSimulation` | precursor-backend/server.js:128-147 | after a tick the index is `(i + 1) % 6`, and each coordinate is within 0.001 degrees of that waypoint. `offRoute` holds exactly when the distance to the waypoint is strictly above 0.3, and the active shipment is unchanged |
| `Ledger.GpsEvent` | precursor-backend/server.js:158-179 | the `GPS_UPDATE` event refers to the active shipment and carries the new position and flag. Its temperature is in [20, 30), its humidity in [40, 60), and it has no weight |
| `Ledger.RunStepsAdvance` | precursor-backend/server.js:128 | `n` ticks advance the index by `n` modulo 6 and keep the active shipment |
| `Ledger.RouteIsCyclic` | precursor-backend/server.js:128-147 | six consecutive ticks bring the route index back to its start |
| `Ledger.RunTicksLowerWeight` | precursor-backend/server.js:150-155 | `n` ticks lower the current weight by exactly `0.01 * n` with no floor. They keep the initial weight and the id, and the last flag decides the status |
| `Ledger.ValidateCreate` | precursor-backend/server.js:206-216 | POST /shipments is rejected when a field is missing or empty or the weight is absent, with the missing-fields message. Otherwise it is rejected when the coerced weight is not finite or is at most 0, with the positive-number message. It is accepted exactly in the remaining case, with that weight |
| `Ledger.NewShipment` | precursor-backend/server.js:218-224 | the inserted row is `Pending` with the fresh id, the request's fields, the clock's `createdAt`, and current weight equal to initial weight |
| `Ledger.ValidateScanWeight` | precursor-backend/server.js:296-303 | an absent weight is accepted as none. A present weight is accepted exactly when it is finite, and kept. Otherwise the reply is the "weight must be a number" error |
| `Ledger.ScanEvent` | precursor-backend/server.js:305-312 | the `CHECKPOINT_SCAN` event carries the request's readings and the validated weight, and is never off route |
| `Ledger.ListShipments` | precursor-backend/server.js:258 | GET /shipments returns a permutation of the table, newest `createdAt` first |
| `Ledger.EventsOf` | precursor-backend/server.js:276 | `WHERE shipmentId = ?` keeps every event of that shipment, as often as it occurs, and no other |
| `Ledger.GetShipment` | precursor-backend/server.js:271-278 | GET /shipments/:id replies 404 with "Shipment not found" exactly for an unknown id. Otherwise it returns the stored row and exactly that shipment's events, newest first |
| `Ledger.ListEvents` | precursor-backend/server.js:371 | GET /events returns `min(100, |events|)` events drawn from the table, newest first, and no event left out is newer than one returned |
| `Ordering.Insert` | precursor-backend/server.js:258 | inserting into a newest-first list keeps it newest first and adds exactly that element |
| `Ordering.SortNewestFirst` | precursor-backend/server.js:258 | `ORDER BY key DESC` returns a permutation, newest first |
| `Ordering.Newest` | precursor-backend/server.js:371 | `ORDER BY key DESC LIMIT n` returns `min(n, |s|)` elements drawn from `s`, newest first, none older than an element left out |
| `Ordering.NewestCut` | precursor-backend/server.js:371 | the first `m` rows of a newest-first arrangement of a table are drawn from it, newest first, and no row left out is newer than one kept |
| `Ordering.NewestPrefixLemma` | precursor-backend/server.js:371 | a prefix of a newest-first permutation is never older than what follows it |
| `Backend.Database.constructor` | precursor-backend/server.js:34 | the database opens with the tables the file holds |
| `Backend.Database.InitializeDatabase` | precursor-backend/server.js:85-92 | the simulation row is seeded only when the table is empty and kept otherwise; the seeded database satisfies the invariant |
| `Backend.Database.SimulateGpsStep` | precursor-backend/server.js:119-182 | with no active shipment nothing changes. Otherwise the simulation row becomes `SteppedSimulation`, the active shipment (and no other row) gets `Tick`, and exactly one `GpsEvent` is appended. The invariant is kept |
| `Backend.Database.CreateShipment` | precursor-backend/server.js:202-249 | a rejected request writes nothing and replies 400 with the validation message. An accepted one is inserted and stored (see `InsertShipment`) and the stored row is the reply. Events never change |
| `Backend.Database.InsertShipment` | precursor-backend/server.js:221-239 | the new row is appended. If the simulation was idle, the row becomes the active shipment `In Transit` with the index reset to 0 and position and flag kept; otherwise the simulation row and the active shipment are unchanged and the new row stays `Pending`. The reply is the stored row, and the invariant is kept |
| `Backend.Database.AppendShipment` | precursor-backend/server.js:221-224 | the `INSERT INTO shipments` of a row with a new key appends exactly that row, changes nothing else, and keeps the invariant |
| `Backend.Database.ClaimShipment` | precursor-backend/server.js:228-234 | an idle simulation claims a stored shipment: the row's active shipment becomes it with index 0 and position and flag kept, that shipment alone becomes `In Transit`, and the invariant is kept |
| `Backend.Database.RecordCheckpointScan` | precursor-backend/server.js:286-327 | an unknown id replies 404 and a present non-finite weight then replies 400, both writing nothing. Otherwise one `ScanEvent` is appended, the weight is overwritten only when one was sent, and the simulation is untouched |
| `Backend.Database.Simulate` | precursor-backend/server.js:334-348 | GET /simulate reports the row's own position, flag, route index and active shipment; the index is a waypoint index and the active shipment is a stored shipment |
| `Backend.Database.StepOnRequest` | precursor-backend/server.js:351-366 | POST /simulate/step runs one GPS step with its whole new state, then replies with the message, the new position and flag and the active shipment, which the step keeps; the reply has no route index |
| `Backend.Database.StoreScan` | precursor-backend/server.js:309-317 | a validated scan appends its event with a new key, overwrites the shipment's weight exactly when one was sent, leaves the simulation alone and keeps the invariant |
| `Backend.WritesKeepInvariant` | precursor-backend/server.js:143-179 | a tick's three writes keep the keys, the foreign key and the simulation invariant |
| `Backend.CreateKeepsInvariant` | precursor-backend/server.js:221-239 | the insert and the claim keep the invariant, the claim changes only the new row, and the read-back returns the stored row |
| `Backend.UpdateWhereAppended` | precursor-backend/server.js:233-234 | updating a freshly inserted id changes only the appended row |
| `StatusDisplay.FormatStatus` | precursor-frontend/config/api.js:97-105 | the four stored statuses map to `CREATED`, `IN_TRANSIT`, `OFF_ROUTE` and `DELIVERED`, and every other string is returned unchanged |
| `StatusDisplay.GetStatusColor` | precursor-frontend/config/api.js:108-116 | the four display statuses get their colours and every other string gets `#6B7280` |
| `StatusDisplay.FormatStatusIdempotent` | precursor-frontend/config/api.js:97-105 | formatting a formatted status changes nothing |
| `StatusDisplay.FormatStatusRange` | precursor-frontend/config/api.js:97-116 | a string formats to a display status exactly when it is a stored or a display status; raw `Pending` and `In Transit` are coloured grey |
| `StatusDisplay.StoredStatusDisplay` | precursor-frontend/config/api.js:97-105 | every status the backend stores formats to a display status, and the counters classify it by its status |
| `StatusDisplay.CountWhere` | precursor-frontend/config/api.js:127-133 | a filter count is at most the list's length |
| `StatusDisplay.CalculateStats` | precursor-frontend/config/api.js:126-136 | `total` is the list's length, `active` counts `In Transit` and `Pending`, `offRoute` counts `OFF_ROUTE`, and `active + offRoute <= total` |
| `StatusDisplay.CountDisjoint` | precursor-frontend/config/api.js:127-133 | two filters that never both hold count at most the list between them |
| `StatusDisplay.CountWhereRemove` | precursor-frontend/config/api.js:127-133 | removing one element removes exactly its contribution to a count |
| `StatusDisplay.CountWhereMultiset` | precursor-frontend/config/api.js:127-133 | a count depends only on the multiset of statuses |
| `StatusDisplay.CalculateStatsPermutation` | precursor-frontend/config/api.js:126-136 | the counters are the same for every ordering of the shipment list |
| `StatusDisplay.ObjectLookup` | precursor-frontend/config/api.js:104-115 | indexing an object literal gives its own entry, else an inherited `Object.prototype` member, else `undefined` |
| `StatusDisplay.FormatStatusAsWritten` | precursor-frontend/config/api.js:104 | `statusMap[status] \|\| status` as written: a status with an entry of its own gets its display name, an `Object.prototype` member name gets the inherited member, any other status is returned unchanged |
| `StatusDisplay.GetStatusColorAsWritten` | precursor-frontend/config/api.js:115 | `colors[status] \|\| '#6B7280'` as written: a status with an entry of its own gets its colour, an `Object.prototype` member name gets the inherited member, any other status gets the grey default |
| `StatusDisplay.AsWrittenAgrees` | precursor-frontend/config/api.js:104-115 | on every string that is not an `Object.prototype` member name, the lookups as written equal `FormatStatus` and `GetStatusColor` |
| `StatusDisplay.PrototypeKeyEscapes` | precursor-frontend/config/api.js:104-115 | on `constructor` the lookups as written return the inherited member instead of the pass-through and the default colour |
| `Detector.FirstNearest` | ML/backend/app.py:97-107 | after visiting `n` points the search holds the first point at the least distance: none only for `n = 0`; no visited point is closer, and every earlier one is strictly farther |
| `Detector.NearestExpectedPoint` | ML/backend/app.py:97-107 | `(None, None)` on an empty route. Otherwise the result is the first route point at the least distance, with that distance, which is at most the distance to every route point |
| `Detector.RouteDistance` | ML/backend/app.py:176-179 | a distance exists exactly when the reading has a position and the route is non-empty; it is the least distance to a route point |
| `Detector.RuleAlerts` | ML/backend/app.py:169-179 | a temperature alert exactly when it is outside [18, 30] and a humidity alert exactly when it is outside [10, 90]. A route-deviation alert exactly when the nearest distance exists and exceeds 30 m. No other alert, and never a sensor failure. Each alert appears at most once, in the order temperature, humidity, route |
| `Detector.RuleChecks` | ML/backend/app.py:165-179 | the imperative rule checks, with the waypoint search, produce `RuleAlerts` on `RouteDistance` |
| `Detector.RouteCheck` | ML/backend/app.py:176-178 | the route part of stage 0: for a reading with a position, the nearest-waypoint search gives exactly `RouteDistance` |
| `Detector.EffectiveOutputs` | ML/backend/app.py:181-228 | the forest counts only with at least 10 buffered readings, otherwise `False` and 0. The autoencoder counts only with exactly 30, otherwise an error and score of 0 |
| `Detector.EnsembleScore` | ML/backend/app.py:232-235 | the score is in [0, 1], at least 0.3 with a forest anomaly and at most 0.7 without one |
| `Detector.RiskLabel` | ML/backend/app.py:237-243 | `HIGH` exactly when the score is at least 0.8, `MEDIUM` exactly when it is in [0.5, 0.8), `LOW` exactly when below 0.5 |
| `Detector.RiskLabelMonotone` | ML/backend/app.py:237-243 | a higher score never gets a lower label |
| `Detector.RiskFromModels` | ML/backend/app.py:232-243 | `HIGH` needs both a forest anomaly and an LSTM score of at least 5/7. Without a forest anomaly the label is `MEDIUM` exactly when the LSTM score is at least 5/7. With one it is `MEDIUM` exactly when the LSTM score is in [2/7, 5/7) |
| `Detector.Categories` | ML/backend/app.py:245-257 | each category is present exactly when its evidence is: a sensor failure alert, an environment alert or an LSTM score above 0.6, a route alert, and a score of at least 0.8. The set is never empty, and `none` is present exactly when it is the only category |
| `Detector.CategoriesOf` | ML/backend/app.py:245-257 | the imperative category list equals `Categories` |
| `Detector.Evaluate` | ML/backend/app.py:165-295 | the summary's alerts are `RuleAlerts`. Its forest verdict and score, reconstruction error and LSTM score are `EffectiveOutputs`: the forest's with at least 10 readings, the autoencoder's only with exactly 30, otherwise `False`/0. The score is the ensemble of those outputs, and the risk is its label. The categories are `Categories`, and `suspicious_behavior` is present exactly when the risk is `HIGH`. `alert_logged` holds exactly when the risk is not `LOW` or a rule fired. With fewer than 10 readings the score is 0 and the risk `LOW` |
| `Detector.Assess` | ML/backend/app.py:232-261 | stage 3 as statements: the score is `EnsembleScore`, its label `RiskLabel`, the categories `Categories`, and the reading is logged exactly when `ShouldLog` holds |
| `Detector.Classify` | ML/backend/app.py:165-261 | stages 0 to 3 as statements compute exactly `Evaluate` |
| `Detector.NoSensorFailureWhenProcessed` | ML/backend/app.py:160-168 | a reading that is processed never gets the `sensor_failure` category |
| `Detector.Slide` | ML/backend/app.py:158-163 | the buffer gains the reading at its end, and loses its oldest reading when it already held 30 |
| `Detector.SlideAllKeepsNewest` | ML/backend/app.py:158-163 | for any run of readings, a buffer that starts within the cap holds exactly the newest 30, oldest first |
| `Detector.PushAlert` | ML/backend/app.py:279-282 | the new alert becomes `ALERTS[0]`; the oldest alert is dropped when the list already held 200 |
| `Detector.PushAllKeepsNewest` | ML/backend/app.py:279-282 | for any run of logged alerts, a list that starts within the cap holds exactly the newest 200, newest first |
| `Detector.PrefixSlice` | ML/backend/app.py:338 | Python's `s[:limit]`: a prefix, of length `min(limit, |s|)` for a non-negative limit and `max(0, |s| + limit)` for a negative one |
| `Detector.Service.constructor` | ML/backend/app.py:68-71 | the service starts with no buffers, no alerts and the loaded expected route |
| `Detector.Service.ProcessReading` | ML/backend/app.py:152-295 | a missing temperature or humidity returns `ConversionError`, creates only the device's empty buffer and leaves `ALERTS` alone. Otherwise the device's buffer becomes `Slide` of it, the reply is `Evaluate` on the new buffer length, and `ALERTS` gets `PushAlert` of the new record exactly when that summary says it was logged. Both caps are kept |
| `Detector.Service.GetAlerts` | ML/backend/app.py:337-338 | `ALERTS[:limit]` with limit 50 by default: a prefix of `ALERTS`, the `PrefixSlice` of it |

## Left out

- **Haversine.** `haversineDistance` and `haversine_meters` are floating-point trigonometry. They are the parameter `km`/`metres`, with no geometric property assumed. With a jitter of at most 0.001 degrees the real distance stays far below 0.3 km, so `offRoute` would in practice never be set; the model does not prove this.
- **Floating point.** All arithmetic is on reals: the 0.01 decrement, the jitter, the score weights and the thresholds. Rounding, including rounding at the thresholds, is not modelled.
- **Randomness, identifiers and the clock.** `Math.random()`, `randomUUID()` and `new Date().toISOString()` are parameters. A UUID collision, which would make the insert fail, is excluded by requiring a fresh id.
- **`Number(...)` coercion.** Coercion of request fields is not modelled: a weight is given as the JavaScript number it coerces to. Non-string `productId`, `origin` or `destination` values are not modelled either.
- **HTTP and Express.** Routing, status codes other than the replies modelled, JSON encoding, and every `catch` that replies 500 are left out. So are a step that fails part-way, which leaves some of its writes applied, and the per-request logging.
- **GET /health, the start-up code and shutdown.** `setInterval`, `app.listen` and the `SIGINT` handler are scheduling and I/O. Concurrency between the timer and the requests is not modelled: each method runs alone.
- **SQLite's order among equal keys.** `ORDER BY ... DESC` leaves it unspecified. The model keeps table order, and its contracts do not depend on that choice.
- **ML inference.** `model_if`, `model_lstm`, `scaler.transform`, `extract_if_features`, `normalize_for_lstm` and `np.exp` are left out. What they report is the `ModelOutputs` parameter. The only assumptions are a non-negative reconstruction error and a normalised score in [0, 1].
- **Other parts of app.py.** `load_expected_route` (CSV loading), the ThingSpeak polling and its thread, and the Flask handlers other than the `ALERTS[:limit]` slice are left out. The `report` handler's parsing of the JSON body is among them.
- **Integer parsing of the limit.** `get_alerts` receives the limit already parsed as an `int`; a non-integer `limit`, which raises, is not modelled.
- **Other parts of api.js.** `handleResponse`, the `api.*` fetch wrappers and `formatDate` are network calls and locale formatting. `calculateStats` is given the list of status strings, the only field it reads.
- **The rest of the repository.** The UI components, screens and scripts are not part of this model.
- `Detector.Service.ProcessReading`: the buffered reading keeps the converted temperature and humidity the later stages read. The alert record keeps them in the same form, where the source's record stores the raw request values.

## Findings

| source | as written | input that shows it | evidently intended | confidence | as-written member | corrected member |
|---|---|---|---|---|---|---|
| precursor-frontend/config/api.js:104 | `statusMap[status] \|\| status` also finds the members every object inherits from `Object.prototype` | `formatStatus('constructor')` returns the `Object` function, not `'constructor'` | any status without an entry of its own is returned unchanged | not executed; found by proof, and no status the backend stores triggers it | `StatusDisplay.FormatStatusAsWritten` (`StatusDisplay.PrototypeKeyEscapes`) | `StatusDisplay.FormatStatus` (`StatusDisplay.AsWrittenAgrees`) |
| precursor-frontend/config/api.js:115 | `colors[status] \|\| '#6B7280'` also finds the inherited `Object.prototype` members | `getStatusColor('constructor')` returns the `Object` function instead of `'#6B7280'` | every status without a colour of its own gets the default grey | not executed; found by proof, and no display status triggers it | `StatusDisplay.GetStatusColorAsWritten` (`StatusDisplay.PrototypeKeyEscapes`) | `StatusDisplay.GetStatusColor` (`StatusDisplay.AsWrittenAgrees`) |
