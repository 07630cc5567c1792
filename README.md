# Device failover sessions

A usage session runs on one device at a time. When the operator stops the
current device, its segment is closed, the MB it used is fixed at its
device's rate, and the session fails over to the next available device.
Stopped devices are never picked again until a reset. A summary reports
per-device time and MB together with a live figure for the open segment.
A per-device profile reports a device's totals over all sessions, the last
session that used it, and the active session while the device serves it.

The system keeps this state in two ways, and both are modelled:

- `SessionStore` (`session_store.dfy`) is the in-memory store. It has
  three seed devices and at most one session, all held in one object whose
  fields every operation updates in place. It is modelled as the class
  `Store`. Each method is tied to a value-level transition function
  (`CloseOpen`, `Autoswitch`, `AfterStop`, `SummaryOf`). Lemmas prove that
  those functions keep the store `Consistent`:
  - the seed registry is kept;
  - only the last segment is open;
  - a segment holds its MB exactly once it is closed;
  - every segment is on a registered device;
  - no device serves a session twice;
  - a device is available exactly when unused, and busy exactly when it holds the open segment.
- `DbSession` (`db_session.dfy`) is the database-backed store. It has the
  tables `devices`, `sessions` and `session_segments`, held by the class
  `Database`. Each query is a function over the table rows, with the
  `ORDER BY` it uses. Each write operation is tied to a function on the
  whole `Tables` value. The summary and the profile are methods whose loops
  are proved against the specification functions `SummaryOf` and `ProfileOf`.
- `Usage` (`usage.dfy`) is the shared part:
  - the clock arithmetic;
  - the MB estimate;
  - the per-device fold, which accumulates each segment's time and MB into the accumulator for its device id;
  - the summary block built from that fold.
- `Ids` (`ids.dfy`) is the order on ids that `ORDER BY id` uses.

Units. Times are integer milliseconds. Every figure the source rounds with
`+(x).toFixed(2)` is an integer count of hundredths (of a minute or of an
MB). Rates are integer MB per minute.

Both summaries add the live MB of the open segment to the grand total.
That segment's MB is already in its device's row, so it is counted twice.
The model keeps this behaviour (`SessionStore.SummaryCountsLiveTwice`).

## Model

| member | source | states |
|---|---|---|
| `Usage.HundredthsRounds` | lib/session-store.ts:115 | the rounded figure lies within half a hundredth of the exact quotient, as `toFixed(2)` does for non-negative values |
| `Usage.Lookup` | lib/session-store.ts:184 | `perDevice.get(id)`: the position found holds accumulator `id`; no position is found only when there is no such accumulator |
| `Usage.AccumulateStep` | lib/db-session.ts:192-196 | one more segment changes only the accumulator found for its device, by its time and MB; with no accumulator nothing changes |
| `Usage.AccumulatedMb` | lib/db-session.ts:192-205 | starting from zero with no id repeated, the accumulators hold the MB of every segment on a listed device; other segments' MB is lost |
| `Usage.SumMbOfTotals` | lib/db-session.ts:203-205 | accumulators holding exactly what is charged to them sum to the MB of the charges on their ids |
| `Usage.KnownMbSplit` | lib/db-session.ts:192-196 | the MB of the charges on a set of devices splits into one device's share and the rest |
| `Usage.KnownMbOfAll` | lib/session-store.ts:184-186 | when every charge is on a known device, the known MB is all MB |
| `Usage.ChargedMbNonNegative` | lib/session-store.ts:186 | charges without negative MB leave no device a negative figure |
| `Usage.Touched` | lib/session-store.ts:190 | the rows kept are exactly those with positive time or MB, and id order is kept |
| `Usage.TouchedSums` | lib/session-store.ts:190-193 | dropping untouched devices loses no time, and no MB when no figure is negative |
| `Usage.ReportFacts` | lib/session-store.ts:190-209 | the summary block: current device and live figure as given; total time is the rounded sum of device times; total MB is device MB plus live; detail rows are exactly the touched devices, in id order when the devices are |
| `SessionStore.IndexOf` | lib/session-store.ts:58 | `find` by id: the first device with that id, and none exactly when no device has it |
| `SessionStore.PickAvailableDevice` | lib/session-store.ts:52-55 | the first available device in array order, and none only when no device is available |
| `SessionStore.CurrentSegment` | lib/session-store.ts:118-122 | the last segment if it has not ended; none without segments or when the last one has ended |
| `SessionStore.SeedIdsDistinct` | lib/session-store.ts:31-35 | the seed devices have distinct ids |
| `SessionStore.IndexOfOwnId` | lib/session-store.ts:58 | with distinct ids, `find` locates each device at its own position |
| `SessionStore.IndexOfByIds` | lib/session-store.ts:58 | `find` by id depends only on the ids, position by position |
| `SessionStore.WithStatusKeepsRegistry` | lib/session-store.ts:57-65 | marking a device busy or stopped keeps the seed ids, names, rates and order |
| `SessionStore.WithStatusKeepsRate` | lib/session-store.ts:113-114 | a status change leaves the rate `find` gives for every id |
| `SessionStore.SameDevices` | lib/session-store.ts:134-137 | segments keeping their devices keep being registered and served-once, and keep which devices are unused |
| `SessionStore.OpenKeepsServedOnce` | lib/session-store.ts:95-101 | opening a segment on an unused device keeps every segment registered and no device serving twice |
| `SessionStore.OpenKeepsStatuses` | lib/session-store.ts:141-146 | after opening on an available device, available still means unused and busy still means holding the open segment |
| `SessionStore.OpenKeepsConsistent` | lib/session-store.ts:95-101 | opening a segment on an available device when none is open keeps the store consistent |
| `SessionStore.CloseKeepsSegments` | lib/session-store.ts:105-116 | closing the last segment keeps every segment's device, leaves none open, and gives it its MB |
| `SessionStore.CloseKeepsStatuses` | lib/session-store.ts:134-137 | stopping the open segment's device while closing the segment keeps statuses matching the segments |
| `SessionStore.CloseKeepsConsistent` | lib/session-store.ts:134-137 | stop-then-close keeps the store consistent with no segment open |
| `SessionStore.ConsistentIsSummarizable` | lib/session-store.ts:184 | in a consistent store every segment's device has an accumulator, so the `!` lookup never fails |
| `SessionStore.TotalsStep` | lib/session-store.ts:184-186 | a segment on a registered device is found and added to that device's accumulator only |
| `SessionStore.ClosedCharges` | lib/session-store.ts:183 | closed segments are charged exactly the MB they stored |
| `SessionStore.ChargesMb` | lib/session-store.ts:177-188 | the segments' MB is the stored MB plus the live figure of the open segment |
| `SessionStore.TotalsHoldAllMb` | lib/session-store.ts:177-193 | with every segment registered, the accumulators hold every segment's MB |
| `SessionStore.TotalsNonNegative` | lib/session-store.ts:185-186 | no accumulator goes negative |
| `SessionStore.SummaryCountsLiveTwice` | lib/session-store.ts:157-201 | total MB equals the stored MB plus twice the live figure; total time is the rounded sum of the per-device accumulators' times |
| `SessionStore.SummaryCurrentIsBusy` | lib/session-store.ts:159-199 | the summary's current device is exactly the busy device; with no open segment it is none and live is 0 |
| `SessionStore.SeedAscending` | lib/session-store.ts:31-35 | the seed devices are listed in ascending id order |
| `SessionStore.SummaryRowsInDeviceOrder` | lib/session-store.ts:167-207 | detail rows come in device order and name only registered devices |
| `SessionStore.StopClosesLast` | lib/session-store.ts:124-151 | a stop closes exactly the open segment at now, at its device's rate; earlier segments and the session fields are kept; a switch appends one open segment on the new device |
| `SessionStore.PickIgnoresStop` | lib/session-store.ts:135-140 | stopping a device that is not available does not change which device is picked next |
| `SessionStore.StopSwitchesToFirstAvailable` | lib/session-store.ts:134-147 | the stopped device becomes stopped; the switch goes to the first available device, never the stopped one; every other device is unchanged |
| `SessionStore.StopThenSwitch` | lib/session-store.ts:139-147 | the device-level effect of the switch after a stop, position by position |
| `SessionStore.StopKeepsConsistent` | lib/session-store.ts:124-151 | a stop keeps the store consistent |
| `SessionStore.StoppedStaysStopped` | lib/session-store.ts:134-147 | a stopped device is still stopped after any stop |
| `SessionStore.BusyIsOpenDevice` | lib/session-store.ts:96-100 | a device is busy exactly when it holds the open segment, so at most one device is busy |
| `SessionStore.IdleStartPicksFirst` | lib/session-store.ts:87-96 | with no session every device is available, and a start takes `dev-a` |
| `SessionStore.SegmentsBounded` | lib/session-store.ts:139-147 | a session never has more segments than there are devices |
| `SessionStore.Store.constructor` | lib/session-store.ts:40-46 | the store starts with the seed devices and no session |
| `SessionStore.Store.MarkDeviceBusy` | lib/session-store.ts:57-60 | the device `find` locates becomes busy; nothing changes when there is none |
| `SessionStore.Store.MarkDeviceStopped` | lib/session-store.ts:62-65 | the device `find` locates becomes stopped; nothing changes when there is none |
| `SessionStore.Store.ResetAll` | lib/session-store.ts:75-79 | a fresh copy of the seed devices and no session |
| `SessionStore.Store.StartSession` | lib/session-store.ts:81-103 | an active session is returned unchanged; otherwise a new session with id and start as given replaces the old one and opens a segment on the first available device, which becomes busy; consistency is kept |
| `SessionStore.Store.CloseCurrentSegmentAndComputeMB` | lib/session-store.ts:105-116 | the open segment, if any, gets end now and its MB at its device's rate; devices are unchanged |
| `SessionStore.Store.StopCurrentDeviceAndAutoswitch` | lib/session-store.ts:124-151 | the new state and result are `AfterStop` of the old state; without an open segment nothing changes; consistency is kept |
| `SessionStore.Store.SwitchToNextAvailable` | lib/session-store.ts:139-150 | the new state is `Autoswitch` of the old one, and consistency is kept |
| `SessionStore.Store.BuildSessionSummary` | lib/session-store.ts:153-211 | the result is `SummaryOf` the store (the lemmas above state its properties) |
| `SessionStore.Store.ZeroTotals` | lib/session-store.ts:167-175 | one zero accumulator per device, in device order |
| `SessionStore.Store.AddSegments` | lib/session-store.ts:177-188 | the accumulators after folding every segment's time and MB into its device's accumulator |
| `DbSession.ActiveSession` | lib/db-session.ts:17-28 | a session without `ended_at` starting no earlier than any other such session; none exactly when every session has ended |
| `DbSession.OpenSegment` | lib/db-session.ts:30-42 | an open segment of the session starting no earlier than its other open segments; none exactly when all its segments are closed |
| `DbSession.PickAvailableDevice` | lib/db-session.ts:44-55 | the available device with the smallest id; none exactly when no device is available |
| `DbSession.PickFirstBelowRest` | lib/db-session.ts:50 | a first row below the best of the rest is below every available row |
| `DbSession.PickRestOverFirst` | lib/db-session.ts:50 | otherwise the best of the rest is at or below the first row |
| `DbSession.FindDevice` | lib/db-session.ts:113-117 | the row with that id; none exactly when no row has it |
| `DbSession.FindSession` | lib/db-session.ts:293-297 | the session row with that id; none exactly when no row has it |
| `DbSession.Upsert` | lib/db-session.ts:75 | the row is in the table, replacing the row with its id; every other row stays; id order is kept |
| `DbSession.UpsertAll` | lib/db-session.ts:70-75 | upserting the seed rows keeps the table in id order |
| `DbSession.UpsertFront` | lib/db-session.ts:75 | a row below the first id heads the table and collides with no row |
| `DbSession.AscendingUncons` | lib/db-session.ts:50 | an id-ordered table less its first row is id-ordered, and its first id is below every other |
| `DbSession.AscendingCons` | lib/db-session.ts:50 | a row below every id can head an id-ordered table |
| `DbSession.BelowIrreflexiveAll` | lib/db-session.ts:75 | an id below every id in the table collides with none |
| `DbSession.SetStatusKeepsIds` | lib/db-session.ts:57-61 | a status update leaves every id where it was |
| `DbSession.SparedSessions` | lib/db-session.ts:68 | the delete `neq("id", nil UUID)`: exactly the session rows whose id is the nil UUID are kept |
| `DbSession.SparedSegments` | lib/db-session.ts:67 | the same delete on segments: exactly the segment rows whose id is the nil UUID are kept |
| `DbSession.ResetSeeds` | lib/db-session.ts:63-78 | after reset: the only sessions and segments left are old ones with the nil UUID as id, and none when no row has it; the seed rows are present; every other device row is an old non-seed row, and every old non-seed row survives |
| `DbSession.UpsertSeeds` | lib/db-session.ts:70-75 | upserting the seed rows: they are present, every other row is an old non-seed row, and every old non-seed row survives |
| `DbSession.StartFresh` | lib/db-session.ts:80-102 | with no active session, the new session becomes the active one; the smallest-id available device becomes busy; the new segment is that session's open segment |
| `DbSession.StopSwitches` | lib/db-session.ts:104-145 | the sessions table is unchanged; only the open segment is closed, at now and the device's rate; the device is stopped; the switch goes to the smallest-id available device other than the stopped one, or none when there is none |
| `DbSession.OfSession` | lib/db-session.ts:166-169 | exactly the segments of the session |
| `DbSession.OfDevice` | lib/db-session.ts:241-244 | exactly the segments on the device; none when no segment is on it |
| `DbSession.InsertByStart` | lib/db-session.ts:170 | insertion adds the segment and keeps every other one |
| `DbSession.InsertKeepsOrder` | lib/db-session.ts:170 | insertion keeps the segments in start order |
| `DbSession.InsertBelow` | lib/db-session.ts:170 | insertion keeps every start under a common bound |
| `DbSession.SortByStart` | lib/db-session.ts:170 | `ORDER BY started_at`: a permutation of the segments in start order |
| `DbSession.SortKeepsRows` | lib/db-session.ts:245 | sorting keeps exactly the same segments |
| `DbSession.SpentInsert` | lib/db-session.ts:254-261 | inserting a segment adds its own time and MB to the totals |
| `DbSession.SpentSorted` | lib/db-session.ts:254-261 | the totals do not depend on the order the segments are read in |
| `DbSession.LastOpen` | lib/db-session.ts:197-200 | the last open segment in walk order; none exactly when all are closed |
| `DbSession.LastOpenIsLatest` | lib/db-session.ts:197-200 | in start order, the last open segment starts no earlier than any open segment |
| `DbSession.FirstSeen` | lib/db-session.ts:269-276 | the sessions in order of first appearance, none repeated |
| `DbSession.Latest` | lib/db-session.ts:272-274 | `Math.max` over the session's starts from -1: it bounds every start and is one of them, or -1 |
| `DbSession.GroupAt` | lib/db-session.ts:272 | `bySession.get`: the entry for the session, or none when there is none |
| `DbSession.BestOf` | lib/db-session.ts:277-282 | the greatest per-session latest start; the first entry reaching it (strict `>`); none and -1 when there are no entries |
| `DbSession.SummaryCurrentIsLatestOpen` | lib/db-session.ts:185-200 | the current device is none exactly when there is no active session or all its segments are closed, and then live is 0; otherwise it is the device of an open segment of the active session that starts no earlier than the others, and live is that segment's estimate |
| `DbSession.SummaryTotals` | lib/db-session.ts:176-218 | total MB is the MB of every segment on a listed device plus live; segments on unlisted devices add nothing; rows are in id order and name listed devices; listing and session are as read |
| `DbSession.WalkedChargesNonNegative` | lib/db-session.ts:191 | with no negative stored MB, no segment is charged negative MB |
| `DbSession.DeviceTotalsFacts` | lib/db-session.ts:177-205 | one accumulator per device row in id order, none negative, together holding the MB of every charge on a listed device |
| `DbSession.ZeroIds` | lib/db-session.ts:178-180 | the accumulators' ids are the device ids |
| `DbSession.AscendingZero` | lib/db-session.ts:177-180 | the accumulators of an id-ordered table have distinct ids |
| `DbSession.ProfileTotals` | lib/db-session.ts:234-263 | no profile exactly for an unknown id; the totals cover every segment on the device, in any order |
| `DbSession.UnusedDeviceProfile` | lib/db-session.ts:236-346 | a listed device no segment was on: totals 0/0, no last session and no current session |
| `DbSession.LastSessionIsLatest` | lib/db-session.ts:265-323 | the last session has a segment on the device starting no earlier than any segment on it |
| `DbSession.LastSessionReported` | lib/db-session.ts:265-323 | a session is picked exactly when some segment is on the device, and it holds the device's latest-starting segment; the last session is reported exactly when the picked id is non-empty and its row exists, with that row's id, start and end and the rounded time and MB of that session's segments on the device; with nothing picked there is none |
| `DbSession.BestCoversSegments` | lib/db-session.ts:267-282 | every grouped segment starts no later than the chosen entry's latest start |
| `DbSession.FilterSorted` | lib/db-session.ts:245-273 | taking one session's segments from the start-ordered list gives that session's segments in start order |
| `DbSession.FilterInsert` | lib/db-session.ts:245-273 | taking one session's segments after an ordered insertion is the ordered insertion into that session's segments, when the segment is of that session, and otherwise leaves them unchanged |
| `DbSession.BestGroupIsLatest` | lib/db-session.ts:267-282 | the chosen entry's session has a segment starting no earlier than any other |
| `DbSession.FirstSeenHasSegment` | lib/db-session.ts:269-276 | every session in the grouping has a segment |
| `DbSession.FirstSeenCovers` | lib/db-session.ts:269-276 | every segment's session is in the grouping |
| `DbSession.UnseenSession` | lib/db-session.ts:272 | a session not yet grouped has no segments and latest start -1 |
| `DbSession.GroupsStepNew` | lib/db-session.ts:272-275 | a segment of a new session adds an entry at the end |
| `DbSession.GroupsStepJoin` | lib/db-session.ts:272-275 | a segment of a known session joins that session's entry |
| `DbSession.CurrentSessionOnDevice` | lib/db-session.ts:325-346 | a current session is the active session, with an open segment on this device that starts at the shown start and no earlier than its other open segments; with no active session, or no open segment of it on this device, there is none; when the active session's open segment is on this device, the current session is reported with its id, that segment's start, and the rounded time and MB estimate so far at the device's rate |
| `DbSession.ZeroAccumulators` | lib/db-session.ts:177-180 | one zero accumulator per device row, in table order |
| `DbSession.WalkSegments` | lib/db-session.ts:182-201 | the accumulators after every segment, with the current device and live figure of the last open segment |
| `DbSession.SumSegments` | lib/db-session.ts:252-261 | the total time and MB of the segments at the device's rate |
| `DbSession.GroupBySession` | lib/db-session.ts:267-276 | the entries by session in order of first appearance, each with its segments and latest start |
| `DbSession.PickLatest` | lib/db-session.ts:277-282 | the entry with the greatest latest start, the first on ties |
| `DbSession.Database.constructor` | lib/db-session.ts:7 | the tables as given, the devices table in id order |
| `DbSession.Database.MarkDeviceStatus` | lib/db-session.ts:57-61 | every row with the id gets the status; the other tables are unchanged |
| `DbSession.Database.ResetAll` | lib/db-session.ts:63-78 | the tables become `ResetTables` of the old tables: sessions and segments only with the nil UUID as id, devices upserted with the seed rows |
| `DbSession.Database.StartSession` | lib/db-session.ts:80-102 | the tables and result are `StartOn` of the old tables; an active session is returned with nothing written |
| `DbSession.Database.StopCurrentDeviceAndAutoswitch` | lib/db-session.ts:104-145 | the tables and result are `StopOn` of the old tables; with no active session, no open segment or no device row, nothing is written |
| `DbSession.Database.BuildSessionSummary` | lib/db-session.ts:147-228 | the result is `SummaryOf` the tables |
| `DbSession.Database.GetDeviceProfile` | lib/db-session.ts:230-362 | the result is `ProfileOf` the tables |

## Left out

- Floating point. Every `+(x).toFixed(2)` is modelled as exact rounding to hundredths, halves away from zero. Binary rounding of doubles, and the sums of unrounded minutes the source rounds only at the end, are not modelled.
- Rates are integer MB per minute, and a stored `mb_used` is an integer number of hundredths.
- Clock and randomness. `Date.now()` is the single `now` parameter of each operation; the source may read the clock several times in one operation. The session id from `Math.random` and the ids the database generates for inserted rows are parameters.
- Supabase I/O. The client, network errors and thrown query errors are not modelled. The two deletes in `resetAll` are modelled as succeeding, since their errors are ignored; as in the source, they spare rows whose id is the nil UUID (`NilId`). The only error path kept is the missing device row in `stopCurrentDeviceAndAutoswitch` (`DeviceRowMissing`).
- Concurrency. Requests run one at a time; there are no interleaved queries.
- `ORDER BY` ties. Rows with equal `started_at` keep table order (a stable sort), and `limit(1)` on equal starts takes the first in table order. The database leaves both unspecified.
- Id order is code-point order, not the database's collation.
- JavaScript truthiness. An empty session id counts as no last session. Timestamps are positive, so an `ended_at` is always truthy.
- Aliasing. The in-memory store returns its live session object; the model returns a copy of its value.
- `getDevices` and `getSession`, which only read, are the `devices` and `session` fields (in-memory) and `Listing` (database).
- SessionStore.Store.BuildSessionSummary requires every segment's device to be registered. The source's `perDevice.get(...)!` would throw otherwise. Every consistent store meets this (`ConsistentIsSummarizable`). The live figure is computed after the loops, which does not change the result.
- The summary and profile loops are split into helper methods: `ZeroTotals`, `AddSegments`, `ZeroAccumulators`, `WalkSegments`, `SumSegments`, `GroupBySession` and `PickLatest`. The stop's autoswitch is the helper `SwitchToNextAvailable`.
- DbSession.PickLatest tracks the chosen entry by position rather than by session id. The two are the same, because no session has two entries.
- DbSession.Database: the write operations require the devices table to be in id order (its primary key). The database guarantees this; it is not a caller obligation in the source.
