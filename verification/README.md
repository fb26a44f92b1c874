# meta-webhook fact reconciliation, in Dafny

A model of the per-record reconciliation of the `meta-webhook` service: the
live `/run-daily` handler turns each ad-level insights record of one day into
a row of the `meta_ads_fact` table and upserts it, and the `/ingest-meta`
handler inserts pre-shaped rows after checking that the payload is an array.

Modules, leaves first:

- `Wrappers` (`wrappers.dfy`): `Option`, standing for JavaScript's `undefined`/`null`.
- `AdCode` (`ad_code.dfy`): the ad code of an ad name. This is the leftmost
  case-insensitive match of `NK[-_]\d+`, upper-cased, with `_` turned into `-`.
  The match is specified independently of the scan as the leftmost-longest match.
- `Actions` (`actions.dfy`): the first `"purchase"` entry of the `actions` and
  `action_values` lists. The default is 0.
- `Metrics` (`metrics.dfy`): ctr, cpc, cpm and roas over the reals, each
  guarded to exactly 0.
- `FactTable` (`fact_table.dfy`): the table as `map<Key, FactRow>` keyed by
  (date, ad_id). It has the `INSERT ... ON CONFLICT (date, ad_id) DO UPDATE`
  statement as `Upsert`, the loop of upserts as `UpsertAll`, and the
  last-write-wins and rerun lemmas.
- `DailySync` (`daily_sync.dfy`): the feed record, its reconciliation into the
  fourteen insert parameters, and the handler loop `RunDaily`.
- `BatchIngest` (`batch_ingest.dfy`): the `/ingest-meta` payload guard and its
  plain-INSERT loop.

On a conflict the update clause (server.js:203-214) overwrites eleven
columns and leaves `ad_code` alone. So a row keeps the ad code derived from
the name it was first inserted with (`FactTable.UpsertAllKeepsStored`,
`DailySync.SyncKeepsStoredAdCode`, `DailySync.SyncNewKeyTakesFirstAdCode`).

## Model

| member | source | states |
|---|---|---|
| AdCode.DigitRun | server.js:180 | the greedy `\d+` run starting at a position: every character in it is a digit, and it stops at the end of the name or at a non-digit |
| AdCode.FindFrom | server.js:180 | the scan returns the leftmost position at or after `from` where a match can start; None means no match starts anywhere from there |
| AdCode.FirstMatch | server.js:180 | the regular-expression match found, if any, is the leftmost-longest match of `NK[-_]\d+` (case-insensitive); None means the name contains no match at all |
| AdCode.LeftmostLongestUnique | server.js:180 | a name has at most one leftmost-longest match, so the match the regular expression reports is well defined |
| AdCode.ToUpper | server.js:181 | `toUpperCase` on ASCII: same length, each letter a-z mapped to A-Z and every other character kept |
| AdCode.ReplaceFirst | server.js:181 | `replace` with a one-character string pattern: same length, only the first occurrence of the pattern becomes the replacement, and a string without it is unchanged |
| AdCode.Normalize | server.js:181 | `.toUpperCase().replace("_", "-")`: each character upper-cased, except the first underscore of the text, which becomes a hyphen |
| AdCode.NormalizeMatch | server.js:181 | upper-casing a match and replacing its first `_` by `-` gives `"NK-"` followed by the match's own digits, whichever case and separator it had |
| AdCode.Derive | server.js:180-181 | the code is present exactly when the name is present and contains a match (absent or empty names give null); every code is `"NK-"` plus one or more digits; it carries the full digit run of the leftmost match |
| AdCode.RederiveIsIdentity | server.js:180-181 | deriving the code of a code returns it unchanged |
| AdCode.DeriveFromMaximalMatch | server.js:180-181 | a match that no earlier match precedes and that cannot be extended by a digit is the one the code is taken from |
| AdCode.LeftmostMatchExample | server.js:180-181 | `"nk_07 promo NK-9"` gives `"NK-07"`: the leftmost match wins and keeps its leading zero |
| AdCode.UnderscoreExample | server.js:180-181 | `"NK_123 Summer Sale"` gives `"NK-123"` |
| AdCode.NoCodeExamples | server.js:180-181 | `"Generic Ad"`, the empty name and an absent name give no code |
| Actions.FindType | server.js:166 | `find` on the action type returns the first entry of exactly that type; None means no entry has that type |
| Actions.PurchaseOr | server.js:162-173 | the purchase amount is the default when the list is absent or has no `"purchase"` entry, and is otherwise the value of the first `"purchase"` entry |
| Actions.Purchases | server.js:162-168 | purchases is 0 when `actions` is absent or has no `"purchase"` entry, and otherwise the value of the first `"purchase"` entry |
| Actions.PurchaseValue | server.js:163-173 | purchase_value is 0 when `action_values` is absent or has no `"purchase"` entry, and otherwise the value of the first `"purchase"` entry |
| Actions.FirstPurchaseExample | server.js:165-168 | entries of other types and purchase entries after the first are ignored |
| Metrics.Ctr | server.js:175 | ctr is 0 when there are no impressions, otherwise ctr times impressions is 100 times clicks; it lies in [0, 100] when clicks do not exceed impressions |
| Metrics.Cpc | server.js:176 | cpc is 0 when there are no clicks, otherwise cpc times clicks is spend; it is non-negative for non-negative spend and at most spend |
| Metrics.Cpm | server.js:177 | cpm is 0 when there are no impressions, otherwise cpm times impressions is 1000 times spend; it is non-negative for non-negative spend |
| Metrics.Roas | server.js:178 | roas is 0 when spend is not positive, otherwise roas times spend is the purchase value; it is non-negative for a non-negative purchase value |
| Metrics.CpmFromCpcAndCtr | server.js:175-177 | when both guards pass, cpm equals 10 x cpc x ctr, so the three formulas agree with one another |
| Metrics.MetricsExample | server.js:175-178 | 1000 impressions, 20 clicks, 50 spent and 150 of purchases give ctr 2, cpc 2.5, cpm 50, roas 3 |
| FactTable.Overwrite | server.js:203-214 | the DO UPDATE SET result keeps the stored date, ad_id and ad_code and takes the eleven listed columns from the incoming row |
| FactTable.Upsert | server.js:183-215 | an absent key gets the whole fourteen-column row; an existing key gets exactly the eleven listed columns, keeping its date, ad_id and ad_code; every other key is unchanged |
| FactTable.UpsertKeepsWellKeyed | server.js:202 | after an upsert every row is still stored under its own (date, ad_id) |
| FactTable.UpsertIdempotent | server.js:183-215 | upserting the same row twice gives the same table as upserting it once |
| FactTable.UpsertCommutes | server.js:183-215 | upserts of rows with different keys commute |
| FactTable.UpsertAll | server.js:156-233 | after the loop the table's keys are the old keys plus the keys of the batch |
| FactTable.UpsertAllKeepsWellKeyed | server.js:156-233 | the loop keeps every row under its own key |
| FactTable.UpsertAllElsewhere | server.js:156-233 | a key that no row of the batch carries keeps its stored row, or stays absent |
| FactTable.UpsertAllKeepsStored | server.js:202-214 | a stored row keeps its date, ad_id and ad_code through any batch |
| FactTable.UpsertAllFirstInsertKept | server.js:183-214 | a key new to the table keeps the date, ad_id and ad_code of the first row of the batch that carries it |
| FactTable.UpsertAllLastWins | server.js:156-233 | after the loop a key holds the eleven updated columns of the last row of the batch that carries it |
| FactTable.RerunIsIdempotent | server.js:156-233 | running the same batch again on the resulting table leaves it unchanged |
| DailySync.Reconcile | server.js:156-231 | the row has the record's key, name and campaign; impressions, clicks and spend are the record's values or 0 when absent; purchases and purchase_value are the first `"purchase"` entries (`Actions.Purchases`, `Actions.PurchaseValue`); ctr, cpc, cpm and roas are the guarded `Metrics` functions of the row's own counters and spend; the ad code is `AdCode.Derive` of the name, present exactly when the name has a match; non-negative inputs give non-negative metrics |
| DailySync.RunDaily | server.js:151-235 | a response without `data` is an error and writes nothing; otherwise every record is reconciled and upserted in order, and the reported count is the number of records |
| DailySync.SyncLastRecordWins | server.js:156-233 | after a sync each key of the feed holds the eleven updated columns of the last record with that key |
| DailySync.SyncKeepsStoredAdCode | server.js:202-214 | a sync never changes the ad code of a row already in the table |
| DailySync.SyncNewKeyTakesFirstAdCode | server.js:180-201 | a key new to the table takes its ad code from the name of the first record carrying it |
| DailySync.SyncTwiceIsSyncOnce | server.js:156-233 | running the same day's feed twice gives the same table as running it once |
| DailySync.SyncKeepsWellKeyed | server.js:156-233 | a sync keeps every row under its own (date, ad_id) |
| DailySync.ReconcileExample | server.js:158-178 | a record with 1000 impressions, 20 clicks, 50 spent, 3 purchases worth 150 gives ctr 2, cpc 2.5, cpm 50, roas 3 |
| BatchIngest.InsertAll | server.js:23-32 | plain inserts add exactly the keys of the batch |
| BatchIngest.InsertAllStores | server.js:23-32 | inserting rows that collide with nothing keeps every stored row and stores each new row under its key |
| BatchIngest.IngestMeta | server.js:15-34 | a missing or non-array `rows` is refused before any write; a batch without key collisions is fully inserted and reports its length; otherwise the request fails at the first colliding row, keeping the rows inserted before it |
| BatchIngest.DuplicateInBatchFails | server.js:23-31 | a batch that names a new key twice fails at its second row |

## Left out

- The Express app, the routes, the response texts and `app.listen` (server.js:4-8, 244-247) are HTTP plumbing. Responses are modelled as status values (`DailyStatus`, `IngestStatus`).
- The pg `Pool`, its SSL configuration and the SQL text are left out. The table is a Dafny map. The schema is not part of this model: a unique index on (date, ad_id) is inferred from the `ON CONFLICT (date, ad_id)` target, and nothing is assumed about NOT NULL constraints.
- The Graph API request (server.js:139-149) is network I/O: URL building, access token and `fetch`. The response's `data` member is an input, and its absence is the error result.
- The "yesterday" date (server.js:133-135) depends on the clock. The date is an input, and it is only echoed in the report; rows are keyed by each record's own `date_start`.
- `parseInt`/`parseFloat` coercion and its NaN results (server.js:158-160, 167, 172) are left out. Counters, spend and action values are already numeric optional fields with a 0 default.
- DailySync.Reconcile: absent fields default to 0, but a NaN from a malformed string is not modelled. In JavaScript a NaN denominator fails its guard and gives 0; a NaN numerator spreads into the metric it is divided in (clicks into ctr, spend into cpc and cpm, purchase_value into roas).
- IEEE floating point is left out. The metrics are computed over `real`, so there is no rounding.
- AdCode.Derive: `toUpperCase` is modelled on ASCII letters only. This matches JavaScript on a match, whose characters are all ASCII.
- Feed records always carry `date_start` and `ad_id` (the feed is requested at ad level with both fields). A record without them would be written with NULL key columns, which a unique index alone does not make conflict; that case is not modelled.
- In `/ingest-meta` each row is a `FactRow`, not a positional array of fourteen JSON values. Parameter-count and type errors from the database are left out. Only the duplicate-key failure of a plain INSERT is modelled.
- A database failure during `/run-daily` is not modelled, because `Upsert` cannot fail in the model.
- The commented-out earlier `/run-daily` handler (server.js:50-121) is dead code.
- The repeated `fetch`/`Pool`/`pool` declarations (server.js:42-48, 122-128) would stop the module from loading. The model follows the intended logic of the live handler.
- Metadata-sheet sync, sheet-date parsing and date-range backfill do not appear in server.js, so there is no code to model them from.
