# panic-pin-server alert core in Dafny

A model of the alert lifecycle and analytics of panic-pin-server, an emergency-alert backend.
Citizens submit SOS alerts with coordinates. Authorities move the alerts through
`pending`, `ongoing` and `resolved`. A periodic sweep deletes old resolved alerts, and a
dashboard summarises the month and the day.

The modules follow the source:

- `AlertModel` (`alert.dfy`): the Alert schema of `models/Alert.js`. It covers the fields, the status enum, the required paths and the defaults that the model constructor fills in.
- `Geo` (`geo.dfy`): `getLocationName`, the first-match zone lookup over a fixed table.
- `Lifecycle` (`lifecycle.dfy`): the status-update rule of `PATCH /sos/:id/status`, and what any sequence of such updates does to an alert.
- `Retention` (`retention.dfy`): the filter of `clearOldAlerts`.
- `ActiveList` (`active_list.dfy`): the query of `GET /get_sos`.
- `Analytics` (`analytics.dfy`): `GET /analytics/dashboard`. It covers the counts, the mean response time, the `forEach` that fills `locationCounts`, and the stable top-five sort.
- `Store` (`store.dfy`): a class `AlertStore` that holds the records in insertion order and is updated in place by `POST /sos`, the PATCH route and the sweep.
- `Seqs` and `Sorting`: the generic filter and the stable sort shared by the modules above.
- `Wrappers`: `Option` and `Result`.

Times are integer milliseconds since the epoch. `responseTime` is a real number of seconds.
In a stored alert, `None` stands for `null`; in the fields handed to the constructor it stands
for a path left undefined.

Where the code departs from the intended behaviour (a write-once `resolvedAt` that is set only on resolved alerts, and a response time that is never overwritten), the model follows the code:

- `resolvedAt` is not set exactly once. Every update to `resolved` overwrites it (`Lifecycle.ResolvedAtStamp`). Reopening an alert leaves it set on a non-resolved record (`Lifecycle.ReopenLeavesStaleResolvedAt`).
- The response time is captured while it is falsy, so a response time of exactly 0 is captured again by the next update to `ongoing` or `resolved` (`Lifecycle.ZeroResponseTimeIsRecaptured`).
- The dashboard groups by `location || "Unknown Location"`, so an empty location is counted under the sentinel.
- No transition is refused. Only a status outside the enum fails, at save time.

## Model

| member | source | states |
|---|---|---|
| AlertModel.ParseStatus | models/Alert.js:28-32 | the enum validator accepts exactly the three status names, and the parsed status has the given name |
| AlertModel.ParseStatusName | models/Alert.js:28-32 | every status name parses back to its status |
| AlertModel.Create | models/Alert.js:3-45 | the construction succeeds iff `user_id` is a non-empty string, `lat` and `lon` are present and any status is in the enum; on failure the reported paths are exactly the failing ones; an unsupplied path takes its schema default (`Unknown Location`, 0, now, pending, false, null, null) and a supplied one is kept |
| AlertModel.HasUserId | models/Alert.js:4-7 | the `required` validator of `user_id`: present and not the empty string |
| AlertModel.StatusAccepted | models/Alert.js:28-32 | the `enum` validator: an absent status, or one of the three names |
| AlertModel.Violations | models/Alert.js:4-32 | the failing paths: a missing or empty `user_id`, a missing `lat` or `lon`, and a status outside the enum; `AlertModel.Create` states that a failure reports exactly these |
| AlertModel.CreateDefaults | models/Alert.js:16-44 | a document built from the required fields alone carries every default |
| Geo.Abs | server.js:34-35 | `Math.abs` is non-negative and equals the argument or its negation |
| Geo.Matches | server.js:34-36 | a zone contains a point when both coordinate differences are strictly below its range |
| Geo.LocationName | server.js:33-41 | the name of the first zone in table order that contains the point, else `Unknown Location`; characterised by the three lemmas below |
| Geo.FirstMatchWins | server.js:33-38 | the first zone in table order whose latitude and longitude both lie strictly within range names the point, whatever later zones match |
| Geo.NoMatchIsUnknown | server.js:33-41 | a point matching no zone gets `Unknown Location` |
| Geo.KnownIffSomeZoneMatches | server.js:24-42 | the point gets a zone name iff some zone matches it |
| Geo.GetLocationName | server.js:24-42 | the loop with early return yields the first-match name, and a zone name iff some zone matches |
| Geo.StationIsInRizal | server.js:26 | the station's own coordinates are in Barangay Rizal |
| Geo.FarPointIsUnknown | server.js:41 | a point far from every zone is `Unknown Location` |
| Geo.EdgeOfRangeIsExcluded | server.js:36 | a point whose latitude or longitude lies a full range or more from a zone's centre is outside that zone (both comparisons are strict) |
| Geo.OverlapGoesToEarlierZone | server.js:28-29 | a point inside both Comembo and Fort Bonifacio is labelled Comembo, the earlier entry |
| Lifecycle.ResponseTimeUnset | server.js:226 | `!alert.responseTime`: the response time is null or 0 |
| Lifecycle.ElapsedSeconds | server.js:227 | the milliseconds between creation and the update, divided by 1000 without truncation |
| Lifecycle.Updated | server.js:221-237 | the record the handler saves, field by field; characterised by the single-update lemmas below |
| Lifecycle.ApplyStatusUpdate | server.js:221-237 | the in-place edits produce the declaratively specified updated record |
| Lifecycle.UpdateSetsRequestedFields | server.js:221-224 | the status becomes the requested one; the false-alarm flag changes only when supplied, and then to the supplied value; creation data is untouched |
| Lifecycle.ResponseTimeCapture | server.js:226-236 | a move to ongoing or resolved while the response time is falsy captures the seconds elapsed since creation; no other update changes it; a truthy one is kept; the captured time is non-negative when the update is not earlier than creation |
| Lifecycle.ResolvedAtStamp | server.js:231-232 | every update to resolved sets `resolvedAt` to the update time; no other update touches it |
| Lifecycle.Replay | server.js:211-245 | the record after a sequence of update requests handled in order; characterised by the sequence lemmas below |
| Lifecycle.ReplayKeepsIdentity | server.js:211-245 | no sequence of updates changes the creation data |
| Lifecycle.ReplayStatusIsLastRequested | server.js:221 | after a sequence of updates the status is the last requested one |
| Lifecycle.CapturedResponseTimeIsKept | server.js:226-236 | a truthy response time survives every later update |
| Lifecycle.NullIffNeverLeftPending | server.js:226-236 | starting from null, the response time is still null iff every request asked for pending |
| Lifecycle.NeverNullAgain | server.js:226-236 | a recorded response time is never null again |
| Lifecycle.FirstDepartureFixesResponseTime | server.js:226-236 | the first request that leaves pending, unless handled in the creation millisecond, fixes the response time to the time elapsed until it, whatever follows |
| Lifecycle.OngoingThenResolvedKeepsFirstCapture | server.js:226-236 | pending, then ongoing, then resolved: the time captured at ongoing survives the resolve, and `resolvedAt` is the resolve time |
| Lifecycle.ReplayEndingInResolve | server.js:231-232 | after any sequence of updates whose last one resolves, `resolvedAt` is the time of that last update |
| Lifecycle.DirectResolveSetsBoth | server.js:231-236 | pending straight to resolved sets the response time and `resolvedAt` in one update |
| Lifecycle.ResolveAfterTwoMinutes | server.js:231-236 | resolving 120 000 ms after creation records 120 seconds |
| Lifecycle.ZeroResponseTimeIsRecaptured | server.js:226 | a zero response time is falsy and is captured again by the next move to resolved |
| Lifecycle.ReopenLeavesStaleResolvedAt | server.js:221-232 | resolved back to pending is accepted and leaves `resolvedAt` set |
| Retention.KeptAt | server.js:58-61 | the test a record passes to survive the sweep: not expired at `now`; used with `Seqs.Filter` in `Retention.Swept` |
| Retention.Expired | server.js:58-61 | the delete filter: resolved and created strictly before 30 minutes ago |
| Retention.Swept | server.js:57-61 | the sweep keeps exactly the records that are not (resolved and created strictly before now minus 30 minutes) |
| Retention.SweepIsIdempotent | server.js:55-66 | sweeping twice at the same time removes nothing more |
| Retention.SweepKeepsOrder | server.js:58-61 | the sweep distributes over concatenation, so surviving records keep their order |
| Retention.NothingExpiredNothingRemoved | server.js:58-61 | with nothing expired the store is unchanged |
| Retention.SweepExamples | server.js:57-61 | the test uses the creation time and not `resolvedAt`, the bound is strict, and unresolved alerts are never removed |
| ActiveList.IsActive | server.js:99 | the query `{status: {$ne: 'resolved'}}` |
| ActiveList.ActiveAlerts | server.js:99 | the list holds exactly the non-resolved records, each with its multiplicity, newest first |
| Analytics.CreatedSince | server.js:253-254 | the query `{timestamp: {$gte: t}}` |
| Analytics.IsResponse | server.js:256 | status resolved or ongoing |
| Analytics.HasResponseTime | server.js:258 | `a.responseTime !== null` |
| Analytics.IsFalseAlarm | server.js:263 | `a.isFalseAlert` |
| Analytics.IsResolved | server.js:264 | status resolved |
| Analytics.ResponseTimeSum | server.js:260 | the left-fold `reduce` of the response times from 0; bounded by `Analytics.SumWithinBounds` |
| Analytics.Since | server.js:253-254 | the alerts created at or after a window start, in store order |
| Analytics.AverageResponseTime | server.js:258-261 | the sum of the non-null response times over their number, or 0 when there are none; bounded by `Analytics.AverageWithinBounds` |
| Analytics.LaterWindowIsSmaller | server.js:253-254 | the day window selects no more alerts than the month window |
| Analytics.AverageOfNoRecordedTimeIsZero | server.js:258-261 | with no recorded response time the mean is 0 |
| Analytics.SumWithinBounds | server.js:260 | the reduce over n values between `lo` and `hi` lies between `n*lo` and `n*hi` |
| Analytics.DivisionWithinBounds | server.js:260 | dividing such a sum by n gives a value between `lo` and `hi` |
| Analytics.MeanWithinBounds | server.js:260 | the mean of values that all lie between `lo` and `hi` lies between them |
| Analytics.TimedWithinBounds | server.js:258 | every alert kept by the `responseTime !== null` filter has a response time within the bounds of all recorded ones |
| Analytics.AverageWithinBounds | server.js:258-261 | the mean lies between the smallest and the largest recorded response time |
| Analytics.Label | server.js:268 | an alert's location, with the empty location read as `Unknown Location` |
| Analytics.Labels | server.js:266-270 | the keys of `locationCounts` in insertion order; characterised by the three lemmas below |
| Analytics.LabelsAreDistinct | server.js:266-270 | the key order of `locationCounts` lists no label twice |
| Analytics.EveryLabelIsListed | server.js:267-269 | every alert's label is a key |
| Analytics.ListedLabelsOccur | server.js:267-269 | every key is some alert's label |
| Analytics.LabelsAreTheDistinctLabels | server.js:266-270 | the keys are distinct and are exactly the labels the alerts carry |
| Analytics.LabelsOfPrefix | server.js:267-269 | keys are inserted in order of first occurrence: the keys of a prefix come first |
| Analytics.OccurrencesStep | server.js:269 | one more alert adds one to its own label's count and nothing to the others' |
| Analytics.UnlistedLabelDoesNotOccur | server.js:267-269 | a label that is not a key occurs in no alert |
| Analytics.LabelsStep | server.js:269 | an alert adds its label as a new last key iff the label is not yet a key |
| Analytics.CountMap | server.js:266-270 | the contents of `locationCounts` once the alerts have been counted one by one |
| Analytics.LocationCounts | server.js:272-273 | one entry per key in key order, with the number of alerts carrying that label |
| Analytics.CountMapIsOccurrences | server.js:266-270 | the filled map has exactly the labels as keys, each mapped to the number of alerts carrying it |
| Analytics.CountedIffListed | server.js:269 | a label is in the map iff it is a key |
| Analytics.CountMapStep | server.js:268-269 | counting one more alert bumps its label's count by one, starting from 0 when the label is new |
| Analytics.CountOneMore | server.js:267-269 | one iteration of the `forEach`: the label is a key iff it is in the map; the map and the key order advance as the loop body advances them |
| Analytics.ListedAreCounted | server.js:272 | every key has a count in the map |
| Analytics.CountMapEntries | server.js:272-273 | listing the map in key order gives one entry per label with its count |
| Analytics.CountLocations | server.js:266-273 | the `forEach` loop and `Object.entries(...).map` produce one entry per label, in first-occurrence order, with its count |
| Analytics.LocationCountsAreOccurrences | server.js:266-273 | entries have distinct locations and each count is the number of alerts with that label, at least 1 |
| Analytics.EveryLabelIsCounted | server.js:266-273 | every alert's label has an entry |
| Analytics.TallyStep | server.js:269 | one more alert raises the total of the tallies by the multiplicity of its label among the keys |
| Analytics.TallyLast | server.js:272-273 | the total of the tallies is that of the keys but the last, plus the last key's count |
| Analytics.Tally1 | server.js:269 | a new key adds its own count to the total |
| Analytics.DistinctMultiplicity | server.js:266-270 | in a list without repeats a label occurs once or not at all |
| Analytics.LocationCountsTotal | server.js:266-273 | the counts add up to the number of monthly alerts |
| Analytics.TopLocations | server.js:272-275 | at most five entries, the count never increases along them, each is an entry, and no left-out entry has a higher count than any kept one |
| Analytics.TopLocationsKeepTieOrder | server.js:274 | among entries of equal count the kept ones are the first in entry order, in that order (the sort is stable) |
| Analytics.TopLocationsDistinct | server.js:272-275 | distinct locations stay distinct |
| Analytics.ComputeDashboard | server.js:247-288 | each counter is the size of its filter over the month or day window and is bounded by the window; the mean and the top five are those of the monthly alerts |
| Analytics.EmptyDashboard | server.js:259-275 | with no alerts the mean is 0 and no location is reported |
| Sorting.InsertDesc | server.js:274 | inserts an element after every element whose key is at least its own; characterised by the insertion lemmas below |
| Sorting.SortDesc | server.js:274 | the stable sort into non-increasing key order (also the `timestamp` sort of server.js:99); characterised by `Sorting.SortDescPermutes`, `Sorting.SortDescSorted` and `Sorting.SortDescStable` |
| Sorting.InsertDescPermutes | server.js:274 | an insertion adds exactly the inserted element |
| Sorting.SortDescPermutes | server.js:274 | the sort is a permutation |
| Sorting.InsertDescSorted | server.js:274 | inserting into a descending sequence keeps it descending |
| Sorting.SortDescSorted | server.js:274 | the sort's result is descending by key |
| Sorting.SortedKeepsMembers | server.js:274 | the sorted sequence holds exactly the input's elements |
| Sorting.PrefixDominates | server.js:275 | in a descending sequence, an element outside the first n has a key no larger than theirs |
| Sorting.InsertDescStable | server.js:274 | an insertion keeps the order of equal-key elements |
| Sorting.InsertAfterHeadStable | server.js:274 | the same, when the element goes after the head |
| Sorting.InsertBeforeHeadStable | server.js:274 | the same, when the element goes before the head |
| Sorting.SortDescStable | server.js:274 | equal-key elements keep their input order |
| Sorting.InsertDescInjective | server.js:274 | inserting an element with a fresh value keeps values distinct |
| Sorting.SortDescInjective | server.js:274 | sorting keeps distinct values distinct |
| Seqs.Filter | server.js:256-264 | `Array.prototype.filter` and the store's query filters (also server.js:58-61, 99, 253-254): the passing elements in order; characterised by the lemmas below |
| Seqs.FilterMembers | server.js:256-264 | a filter keeps exactly the elements that pass the test |
| Seqs.FilterKeepsIncreasing | server.js:58-61 | a filter keeps a strictly increasing key strictly increasing |
| Seqs.FilterConcat | server.js:256-264 | a filter distributes over concatenation |
| Seqs.FilterKeepsAll | server.js:256-264 | when every element passes, the filter is the identity |
| Seqs.FilterNone | server.js:256-264 | when no element passes, the filter is empty |
| Seqs.FilterIdempotent | server.js:256-264 | filtering twice by the same test equals filtering once |
| Seqs.FilterMonotone | server.js:253-254 | a weaker test keeps at least as many elements |
| Seqs.FilterPrefix | server.js:275 | filtering a prefix gives a prefix of the filtered sequence |
| Store.IndexOfId | server.js:216-219 | the lookup returns a position holding the id, or nothing iff no record has it |
| Store.IndexOfIdIsUnique | server.js:216 | with increasing ids, the lookup of a record's id finds that record |
| Store.SosLocation | server.js:72 | the zone of the point, or `Unknown Location` when a coordinate is missing |
| Store.SosFields | server.js:76-83 | the fields the `/sos` handler passes to the constructor: the request's user and coordinates, the looked-up location, the distance and status `pending` |
| Store.SweepKeepsIdsIncreasing | server.js:58-61 | the sweep keeps ids increasing |
| Store.ResolvedIsInactive | server.js:99 | a resolved record's id appears in no entry of the active list |
| Store.AlertStore.constructor | models/Alert.js:47 | the collection bound to the model starts empty, with no id used yet |
| Store.AlertStore.Submit | server.js:70-95 | the save succeeds iff `user_id` is non-empty and both coordinates are present; the new alert is pending, stamped now, labelled by the zone lookup, with no response time or resolution time, and appended with the next id; it is on the active list; on failure the store is unchanged |
| Store.AlertStore.UpdateStatus | server.js:211-245 | an unknown id gives not-found and a status outside the enum gives a validation error, each leaving the store unchanged; otherwise exactly the found record is replaced by its updated version; a resolved record leaves the active list |
| Store.AlertStore.ClearOldAlerts | server.js:55-66 | the records become the sweep of the old records at the given time, and ids stay increasing |

## Left out

- `calculateDistance` (haversine with `sin`, `cos`, `atan2` and `sqrt`): real trigonometry is not available, so the distance is an input to `Store.AlertStore.Submit`.
- The calendar computation of the start of the month and the start of the day: it uses the local time zone, so the two boundaries are inputs to `Analytics.ComputeDashboard`.
- The clocks: `Date.now` and `new Date()` become a `now` parameter. The two `new Date()` calls in the resolve branch are read as one instant.
- MongoDB, Mongoose persistence, HTTP transport and JSON shaping, the `id` string copy of `_id`, logging, and the `setInterval` timer. The store is a sequence in insertion order, and the sweep is the operation the timer triggers.
- Document ids: a counter stands in for `ObjectId`, so a malformed id string (a cast error, answered with 500) is not modelled.
- The `catch` branches: only the failures the core decides are modelled. These are validation failures at save and a missing record.
- User and authority registration and login, the health and keep-alive routes: outside the alert core.
- Concurrency: concurrent updates to one record are not modelled, and neither are overlapping sweeps. Each operation is atomic.
- Floating point: coordinates, distances and response times are exact reals, so rounding in `Math.abs`, subtraction and the mean differs from IEEE doubles. In particular a point exactly one range from a zone centre in decimal (say latitude 14.5647 against 14.5547) can fall inside the zone under doubles, because the difference rounds below 0.01; the model's zone edges are exact.
- Mongoose casting: a non-string `user_id`, a non-boolean `isFalseAlert` and a PATCH without a `status` are outside the input types.
- Store.AlertStore.UpdateStatus: the requested status is always a string, so the unset-status path of the PATCH route is not modelled.
- Analytics.Label: a stored `null` location cannot be represented, so the empty string stands for the falsy location.
- `Object.entries` lists integer-like keys first in ascending order. The model keeps every key in insertion order, so a zone label that looks like an integer is not modelled.
- ActiveList.ActiveAlerts: the store does not fix the order of alerts with equal timestamps. The model sorts stably (store order), and its contract promises only the descending order and the permutation.
