/**
 * The database-backed session store: three tables (`devices`, `sessions`,
 * `session_segments`) that start, stop and reset update through queries,
 * and the summary and device profile that read them.
 *
 * Each row is a value; the tables are sequences held by one Database
 * object. The clock is the `now` parameter, and the ids the database
 * generates for inserted rows are parameters too.
 */
module DbSession {
  import opened Ids
  import opened Usage

  datatype DeviceRow = DeviceRow(id: string, name: string, status: DeviceStatus, mbPerMinute: Option<nat>)

  datatype SessionRow = SessionRow(id: string, startedAt: Timestamp, endedAt: Option<Timestamp>)

  datatype SegmentRow = SegmentRow(
    id: string,
    sessionId: string,
    deviceId: string,
    startedAt: Timestamp,
    endedAt: Option<Timestamp>,
    mbUsed: Option<int>)

  function DeviceIds(ds: seq<DeviceRow>): seq<string>
  {
    seq(|ds|, i requires 0 <= i < |ds| => ds[i].id)
  }

  /** `Number(row.mb_per_minute ?? 2)`: the rate used for estimates. */
  function RateOrFallback(rate: Option<nat>): nat
  {
    if rate.Some? then rate.value else FallbackMbPerMinute
  }

  /** `Number(row.mb_per_minute)` as the device listings show it: a missing rate reads as 0. */
  function ListedRate(rate: Option<nat>): nat
  {
    if rate.Some? then rate.value else 0
  }

  /*
   * Queries.
   */

  /**
   * getActiveSession: a session without `ended_at` whose `started_at` is the
   * latest of all such sessions; among equal starts, the first in table order.
   */
  function ActiveSession(ss: seq<SessionRow>): (r: Option<SessionRow>)
    ensures r.Some? ==> r.value in ss && r.value.endedAt.None?
    ensures r.Some? ==> forall t :: t in ss && t.endedAt.None? ==> t.startedAt <= r.value.startedAt
    ensures r.None? <==> forall t :: t in ss ==> t.endedAt.Some?
  {
    if ss == [] then None
    else
      var rest := ActiveSession(ss[1..]);
      if ss[0].endedAt.None? && (rest.None? || rest.value.startedAt <= ss[0].startedAt) then Some(ss[0])
      else rest
  }

  /**
   * getCurrentOpenSegment: among the segments of session `sid` without
   * `ended_at`, one with the latest `started_at`; among equal starts, the
   * first in table order.
   */
  function OpenSegment(gs: seq<SegmentRow>, sid: string): (r: Option<SegmentRow>)
    ensures r.Some? ==> r.value in gs && r.value.sessionId == sid && r.value.endedAt.None?
    ensures r.Some? ==> forall g :: g in gs && g.sessionId == sid && g.endedAt.None? ==> g.startedAt <= r.value.startedAt
    ensures r.None? <==> forall g :: g in gs && g.sessionId == sid ==> g.endedAt.Some?
  {
    if gs == [] then None
    else
      var rest := OpenSegment(gs[1..], sid);
      if gs[0].sessionId == sid && gs[0].endedAt.None? && (rest.None? || rest.value.startedAt <= gs[0].startedAt) then Some(gs[0])
      else rest
  }

  /** pickAvailableDevice: the available device with the smallest id, if any. */
  function PickAvailableDevice(ds: seq<DeviceRow>): (r: Option<DeviceRow>)
    ensures r.Some? ==> r.value in ds && r.value.status == Available
    ensures r.Some? ==> forall d :: d in ds && d.status == Available ==> d.id == r.value.id || Below(r.value.id, d.id)
    ensures r.None? <==> forall d :: d in ds ==> d.status != Available
  {
    if ds == [] then None
    else
      var rest := PickAvailableDevice(ds[1..]);
      if ds[0].status == Available && (rest.None? || Below(ds[0].id, rest.value.id)) then
        PickFirstBelowRest(ds[0], ds[1..], rest);
        Some(ds[0])
      else
        PickRestOverFirst(ds[0], ds[1..], rest);
        rest
  }

  lemma {:induction false} PickFirstBelowRest(d0: DeviceRow, ds: seq<DeviceRow>, rest: Option<DeviceRow>)
    requires rest.Some? ==> Below(d0.id, rest.value.id)
    requires rest.Some? ==> forall d :: d in ds && d.status == Available ==> d.id == rest.value.id || Below(rest.value.id, d.id)
    requires rest.None? ==> forall d :: d in ds ==> d.status != Available
    ensures forall d :: d in ds && d.status == Available ==> Below(d0.id, d.id)
  {
    forall d | d in ds && d.status == Available
      ensures Below(d0.id, d.id)
    {
      if d.id != rest.value.id {
        BelowTransitive(d0.id, rest.value.id, d.id);
      }
    }
  }

  lemma {:induction false} PickRestOverFirst(d0: DeviceRow, ds: seq<DeviceRow>, rest: Option<DeviceRow>)
    requires rest.Some? && d0.status == Available ==> !Below(d0.id, rest.value.id)
    requires rest.None? ==> d0.status != Available
    ensures rest.Some? && d0.status == Available ==> d0.id == rest.value.id || Below(rest.value.id, d0.id)
  {
    if rest.Some? && d0.status == Available && d0.id != rest.value.id {
      BelowTotal(d0.id, rest.value.id);
    }
  }

  /** `.select().eq("id", id)`: the first row with that id; the only one while ids are unique. */
  function FindDevice(ds: seq<DeviceRow>, id: string): (r: Option<DeviceRow>)
    ensures r.Some? ==> r.value in ds && r.value.id == id
    ensures r.None? <==> forall d :: d in ds ==> d.id != id
  {
    if ds == [] then None
    else if ds[0].id == id then Some(ds[0])
    else FindDevice(ds[1..], id)
  }

  function FindSession(ss: seq<SessionRow>, id: string): (r: Option<SessionRow>)
    ensures r.Some? ==> r.value in ss && r.value.id == id
    ensures r.None? <==> forall t :: t in ss ==> t.id != id
  {
    if ss == [] then None
    else if ss[0].id == id then Some(ss[0])
    else FindSession(ss[1..], id)
  }

  /*
   * Updates.
   */

  /** markDeviceStatus: `update devices set status = st where id = id`. */
  function SetStatus(ds: seq<DeviceRow>, id: string, st: DeviceStatus): seq<DeviceRow>
  {
    seq(|ds|, i requires 0 <= i < |ds| => if ds[i].id == id then ds[i].(status := st) else ds[i])
  }

  /** `update session_segments set ended_at = end, mb_used = mb where id = segId`. */
  function CloseSegment(gs: seq<SegmentRow>, segId: string, end: Timestamp, mb: nat): seq<SegmentRow>
  {
    seq(|gs|, k requires 0 <= k < |gs| => if gs[k].id == segId then gs[k].(endedAt := Some(end), mbUsed := Some(mb)) else gs[k])
  }

  /** An ascending table less its first row is ascending, and its first id is below every other. */
  lemma {:induction false} AscendingUncons(ds: seq<DeviceRow>)
    requires Ascending(DeviceIds(ds)) && ds != []
    ensures Ascending(DeviceIds(ds[1..]))
    ensures forall d :: d in ds[1..] ==> Below(ds[0].id, d.id)
  {
    var ids, tail := DeviceIds(ds), DeviceIds(ds[1..]);
    assert forall k :: 0 <= k < |tail| ==> tail[k] == ids[k + 1];
    forall d | d in ds[1..]
      ensures Below(ds[0].id, d.id)
    {
      var k :| 0 <= k < |ds[1..]| && ds[1..][k] == d;
      assert ids[0] == ds[0].id && ids[k + 1] == d.id;
    }
  }

  /** A row whose id is below every id of an ascending table can head it. */
  lemma {:induction false} AscendingCons(d0: DeviceRow, ds: seq<DeviceRow>)
    requires Ascending(DeviceIds(ds))
    requires forall d :: d in ds ==> Below(d0.id, d.id)
    ensures Ascending(DeviceIds([d0] + ds))
  {
    var ids, tail := DeviceIds([d0] + ds), DeviceIds(ds);
    forall i, j | 0 <= i < j < |ids|
      ensures Below(ids[i], ids[j])
    {
      assert ([d0] + ds)[j] == ds[j - 1];
      if i == 0 {
        assert ds[j - 1] in ds;
      } else {
        assert ids[i] == tail[i - 1] && ids[j] == tail[j - 1];
      }
    }
  }

  /**
   * Upsert on conflict of `id` into a table kept in id order: the row
   * replaces the one with its id, or is inserted where its id belongs.
   */
  function Upsert(ds: seq<DeviceRow>, row: DeviceRow): (r: seq<DeviceRow>)
    requires Ascending(DeviceIds(ds))
    ensures Ascending(DeviceIds(r))
    ensures row in r
    ensures forall d :: d in r ==> d == row || (d in ds && d.id != row.id)
    ensures forall d :: d in ds && d.id != row.id ==> d in r
  {
    if ds == [] then [row]
    else
      AscendingUncons(ds);
      if ds[0].id == row.id then
        AscendingCons(row, ds[1..]);
        BelowIrreflexiveAll(row.id, ds[1..]);
        [row] + ds[1..]
      else if Below(row.id, ds[0].id) then
        UpsertFront(row, ds);
        [row] + ds
      else
        BelowTotal(row.id, ds[0].id);
        var tail := Upsert(ds[1..], row);
        AscendingCons(ds[0], tail);
        [ds[0]] + tail
  }

  lemma {:induction false} BelowIrreflexiveAll(x: string, ds: seq<DeviceRow>)
    requires forall d :: d in ds ==> Below(x, d.id)
    ensures forall d :: d in ds ==> d.id != x
  {
    forall d | d in ds
      ensures d.id != x
    {
      BelowIrreflexive(x);
    }
  }

  lemma {:induction false} UpsertFront(row: DeviceRow, ds: seq<DeviceRow>)
    requires Ascending(DeviceIds(ds)) && ds != [] && Below(row.id, ds[0].id)
    requires forall d :: d in ds[1..] ==> Below(ds[0].id, d.id)
    ensures Ascending(DeviceIds([row] + ds))
    ensures forall d :: d in ds ==> d.id != row.id
  {
    forall d | d in ds
      ensures Below(row.id, d.id)
    {
      if d != ds[0] {
        assert d in ds[1..];
        BelowTransitive(row.id, ds[0].id, d.id);
      }
    }
    AscendingCons(row, ds);
    BelowIrreflexiveAll(row.id, ds);
  }

  /** The rows resetAll upserts. */
  function SeedRows(): seq<DeviceRow>
  {
    [ DeviceRow("dev-a", "Device A", Available, Some(3)),
      DeviceRow("dev-b", "Device B", Available, Some(2)),
      DeviceRow("dev-c", "Device C", Available, Some(4)) ]
  }

  /** Upsert of several rows, one after the other. */
  function UpsertAll(ds: seq<DeviceRow>, rows: seq<DeviceRow>): (r: seq<DeviceRow>)
    requires Ascending(DeviceIds(ds))
    ensures Ascending(DeviceIds(r))
    decreases |rows|
  {
    if rows == [] then ds else UpsertAll(Upsert(ds, rows[0]), rows[1..])
  }

  /** Setting statuses leaves every id where it was. */
  lemma {:induction false} SetStatusKeepsIds(ds: seq<DeviceRow>, id: string, st: DeviceStatus)
    ensures DeviceIds(SetStatus(ds, id, st)) == DeviceIds(ds)
  {
    assert forall i :: 0 <= i < |ds| ==> SetStatus(ds, id, st)[i].id == ds[i].id;
  }

  /*
   * The tables and the state changes of start, stop and reset on them.
   */

  datatype Tables = Tables(devices: seq<DeviceRow>, sessions: seq<SessionRow>, segments: seq<SegmentRow>)

  /** The tables after startSession, and the session it returns. */
  datatype Started = Started(tables: Tables, session: SessionRow)

  /** What stopCurrentDeviceAndAutoswitch returns, or the error it throws when the device row is missing. */
  datatype StopOutcome = Done(session: Option<SessionRow>, switchedTo: Option<string>) | DeviceRowMissing

  datatype StopStep = StopStep(tables: Tables, outcome: StopOutcome)

  /** The id resetAll's deletes spare: `.delete().neq("id", NilId)`. */
  const NilId: string := "00000000-0000-0000-0000-000000000000"

  /** The session rows a delete of every id but NilId leaves, in table order. */
  function SparedSessions(ss: seq<SessionRow>): (r: seq<SessionRow>)
    ensures forall s :: s in r <==> s in ss && s.id == NilId
    ensures (forall s :: s in ss ==> s.id != NilId) ==> r == []
  {
    if ss == [] then []
    else
      var last := ss[|ss| - 1];
      assert ss == ss[..|ss| - 1] + [last];
      SparedSessions(ss[..|ss| - 1]) + (if last.id == NilId then [last] else [])
  }

  /** The segment rows a delete of every id but NilId leaves, in table order. */
  function SparedSegments(gs: seq<SegmentRow>): (r: seq<SegmentRow>)
    ensures forall g :: g in r <==> g in gs && g.id == NilId
    ensures (forall g :: g in gs ==> g.id != NilId) ==> r == []
  {
    if gs == [] then []
    else
      var last := gs[|gs| - 1];
      assert gs == gs[..|gs| - 1] + [last];
      SparedSegments(gs[..|gs| - 1]) + (if last.id == NilId then [last] else [])
  }

  /** resetAll: every segment and every session deleted but a row with id NilId, and the seed devices upserted. */
  function ResetTables(t: Tables): Tables
    requires Ascending(DeviceIds(t.devices))
  {
    Tables(UpsertAll(t.devices, SeedRows()), SparedSessions(t.sessions), SparedSegments(t.segments))
  }

  /**
   * startSession: the active session, if there is one, with nothing
   * written; otherwise a new session `sid` and, when a device is available,
   * that device busy and an open segment `segId` on it.
   */
  function StartOn(t: Tables, now: Timestamp, sid: string, segId: string): Started
  {
    match ActiveSession(t.sessions)
    case Some(existing) => Started(t, existing)
    case None =>
      var session := SessionRow(sid, now, None);
      match PickAvailableDevice(t.devices)
      case None => Started(t.(sessions := t.sessions + [session]), session)
      case Some(d) =>
        Started(Tables(SetStatus(t.devices, d.id, Busy),
                       t.sessions + [session],
                       t.segments + [SegmentRow(segId, sid, d.id, now, None, None)]),
                session)
  }

  /**
   * stopCurrentDeviceAndAutoswitch: without an active session, an open
   * segment in it, or a row for that segment's device, nothing is written;
   * otherwise the device is stopped, the segment closed with its MB at the
   * device's rate, and the available device with the smallest id, if any,
   * made busy with a new open segment `segId`.
   */
  function StopOn(t: Tables, now: Timestamp, segId: string): StopStep
  {
    match ActiveSession(t.sessions)
    case None => StopStep(t, Done(None, None))
    case Some(session) =>
      match OpenSegment(t.segments, session.id)
      case None => StopStep(t, Done(Some(session), None))
      case Some(current) =>
        match FindDevice(t.devices, current.deviceId)
        case None => StopStep(t, DeviceRowMissing)
        case Some(row) =>
          var stopped := SetStatus(t.devices, current.deviceId, Stopped);
          var mb := EstimateMb(ElapsedMs(current.startedAt, now), RateOrFallback(row.mbPerMinute));
          var closed := CloseSegment(t.segments, current.id, now, mb);
          match PickAvailableDevice(stopped)
          case None => StopStep(Tables(stopped, t.sessions, closed), Done(Some(session), None))
          case Some(next) =>
            StopStep(Tables(SetStatus(stopped, next.id, Busy),
                            t.sessions,
                            closed + [SegmentRow(segId, session.id, next.id, now, None, None)]),
                     Done(Some(session), Some(next.id)))
  }

  /**
   * After a reset the seed rows are in the devices table, every other row
   * there is an old row whose id is not a seed id, and every such old row
   * survives; no session and no segment is left but one whose id is
   * NilId, which the database never generates.
   */
  lemma {:induction false} ResetSeeds(t: Tables)
    requires Ascending(DeviceIds(t.devices))
    ensures var r := ResetTables(t);
      && (forall s :: s in r.sessions <==> s in t.sessions && s.id == NilId)
      && (forall g :: g in r.segments <==> g in t.segments && g.id == NilId)
      && ((forall s :: s in t.sessions ==> s.id != NilId) ==> r.sessions == [])
      && ((forall g :: g in t.segments ==> g.id != NilId) ==> r.segments == [])
      && (forall row :: row in SeedRows() ==> row in r.devices)
      && (forall d :: d in r.devices ==> d in SeedRows() || (d in t.devices && d.id !in DeviceIds(SeedRows())))
      && (forall d :: d in t.devices && d.id !in DeviceIds(SeedRows()) ==> d in r.devices)
  {
    UpsertSeeds(t.devices);
  }

  /** The device half of ResetSeeds: upserting the seed rows. */
  lemma {:induction false} UpsertSeeds(ds: seq<DeviceRow>)
    requires Ascending(DeviceIds(ds))
    ensures var r := UpsertAll(ds, SeedRows());
      && (forall row :: row in SeedRows() ==> row in r)
      && (forall d :: d in r ==> d in SeedRows() || (d in ds && d.id !in DeviceIds(SeedRows())))
      && (forall d :: d in ds && d.id !in DeviceIds(SeedRows()) ==> d in r)
  {
    var seed := SeedRows();
    var d1 := Upsert(ds, seed[0]);
    var d2 := Upsert(d1, seed[1]);
    var d3 := Upsert(d2, seed[2]);
    assert UpsertAll(ds, seed) == d3 by {
      assert seed[1..][1..][1..] == [];
    }
    assert DeviceIds(seed) == ["dev-a", "dev-b", "dev-c"];
  }

  /**
   * A start with no active session makes the new session the active one;
   * the device it takes is the available one with the smallest id, and
   * the segment it opens is the new session's open segment.
   */
  lemma {:induction false} StartFresh(t: Tables, now: Timestamp, sid: string, segId: string)
    requires ActiveSession(t.sessions).None?
    requires forall g :: g in t.segments ==> g.sessionId != sid
    ensures var st := StartOn(t, now, sid, segId);
      && st.session == SessionRow(sid, now, None)
      && st.tables.sessions == t.sessions + [st.session]
      && ActiveSession(st.tables.sessions) == Some(st.session)
      && match PickAvailableDevice(t.devices)
         case None =>
           && st.tables.devices == t.devices && st.tables.segments == t.segments
           && OpenSegment(st.tables.segments, sid).None?
         case Some(d) =>
           && st.tables.devices == SetStatus(t.devices, d.id, Busy)
           && st.tables.segments == t.segments + [SegmentRow(segId, sid, d.id, now, None, None)]
           && OpenSegment(st.tables.segments, sid) == Some(SegmentRow(segId, sid, d.id, now, None, None))
  {
    var session := SessionRow(sid, now, None);
    var ss := t.sessions + [session];
    assert session in ss;
    var a := ActiveSession(ss);
    assert a.Some?;
    assert a.value in t.sessions || a.value == session;
    match PickAvailableDevice(t.devices)
    case None =>
    case Some(d) =>
      var seg := SegmentRow(segId, sid, d.id, now, None, None);
      var gs := t.segments + [seg];
      assert seg in gs;
      var o := OpenSegment(gs, sid);
      assert o.Some?;
      assert o.value in t.segments || o.value == seg;
  }

  /**
   * A stop with an open segment on a listed device leaves the sessions
   * table alone, closes exactly the rows of that segment at the device's
   * rate, stops the device, and switches to the available device with the
   * smallest id among the others, if any: never back to the stopped one.
   */
  lemma {:induction false} StopSwitches(t: Tables, now: Timestamp, segId: string, a: SessionRow, cur: SegmentRow, row: DeviceRow)
    requires ActiveSession(t.sessions) == Some(a)
    requires OpenSegment(t.segments, a.id) == Some(cur)
    requires FindDevice(t.devices, cur.deviceId) == Some(row)
    ensures var st := StopOn(t, now, segId);
      var mb := EstimateMb(ElapsedMs(cur.startedAt, now), RateOrFallback(row.mbPerMinute));
      && st.tables.sessions == t.sessions
      && st.outcome.Done? && st.outcome.session == Some(a)
      && st.outcome.switchedTo != Some(cur.deviceId)
      && |st.tables.segments| == |t.segments| + (if st.outcome.switchedTo.Some? then 1 else 0)
      && (forall k :: 0 <= k < |t.segments| ==>
            st.tables.segments[k] == (if t.segments[k].id == cur.id then t.segments[k].(endedAt := Some(now), mbUsed := Some(mb)) else t.segments[k]))
      && |st.tables.devices| == |t.devices|
      && match st.outcome.switchedTo
         case None =>
           && (forall d :: d in t.devices && d.status == Available ==> d.id == cur.deviceId)
           && (forall i :: 0 <= i < |t.devices| ==>
                 st.tables.devices[i] == (if t.devices[i].id == cur.deviceId then t.devices[i].(status := Stopped) else t.devices[i]))
         case Some(id) =>
           && (exists d :: d in t.devices && d.status == Available && d.id == id)
           && (forall d :: d in t.devices && d.status == Available && d.id != cur.deviceId ==> d.id == id || Below(id, d.id))
           && st.tables.segments[|t.segments|] == SegmentRow(segId, a.id, id, now, None, None)
           && (forall i :: 0 <= i < |t.devices| ==>
                 st.tables.devices[i] == (if t.devices[i].id == cur.deviceId then t.devices[i].(status := Stopped)
                                          else if t.devices[i].id == id then t.devices[i].(status := Busy)
                                          else t.devices[i]))
  {
    var stopped := SetStatus(t.devices, cur.deviceId, Stopped);
    forall d | d in t.devices && d.status == Available && d.id != cur.deviceId
      ensures d in stopped
    {
      var i :| 0 <= i < |t.devices| && t.devices[i] == d;
      assert stopped[i] == d;
    }
    forall d | d in stopped && d.status == Available
      ensures d in t.devices && d.id != cur.deviceId
    {
      var i :| 0 <= i < |stopped| && stopped[i] == d;
      assert t.devices[i] == d;
    }
  }

  /*
   * The queries buildSessionSummary and getDeviceProfile read with.
   */

  /** `.eq("session_id", sid)`: the segments of session `sid`, in table order. */
  function OfSession(gs: seq<SegmentRow>, sid: string): (r: seq<SegmentRow>)
    ensures forall g :: g in r <==> g in gs && g.sessionId == sid
  {
    if gs == [] then []
    else
      var last := gs[|gs| - 1];
      assert gs == gs[..|gs| - 1] + [last];
      OfSession(gs[..|gs| - 1], sid) + (if last.sessionId == sid then [last] else [])
  }

  /** `.eq("device_id", id)`: the segments on device `id`, in table order. */
  function OfDevice(gs: seq<SegmentRow>, id: string): (r: seq<SegmentRow>)
    ensures forall g :: g in r <==> g in gs && g.deviceId == id
    ensures (forall g :: g in gs ==> g.deviceId != id) ==> r == []
  {
    if gs == [] then []
    else
      var last := gs[|gs| - 1];
      assert gs == gs[..|gs| - 1] + [last];
      OfDevice(gs[..|gs| - 1], id) + (if last.deviceId == id then [last] else [])
  }

  /** The segments are in `started_at` order. */
  predicate ByStart(gs: seq<SegmentRow>)
  {
    forall k, l :: 0 <= k < l < |gs| ==> gs[k].startedAt <= gs[l].startedAt
  }

  /** `g` placed after every segment that starts no later than it. */
  function InsertByStart(gs: seq<SegmentRow>, g: SegmentRow): (r: seq<SegmentRow>)
    ensures multiset(r) == multiset(gs) + multiset{g}
  {
    if gs == [] || gs[|gs| - 1].startedAt <= g.startedAt then gs + [g]
    else
      assert gs == gs[..|gs| - 1] + [gs[|gs| - 1]];
      InsertByStart(gs[..|gs| - 1], g) + [gs[|gs| - 1]]
  }

  lemma {:induction false} InsertKeepsOrder(gs: seq<SegmentRow>, g: SegmentRow)
    requires ByStart(gs)
    ensures ByStart(InsertByStart(gs, g))
  {
    if gs != [] && g.startedAt < gs[|gs| - 1].startedAt {
      var front, last := gs[..|gs| - 1], gs[|gs| - 1];
      InsertKeepsOrder(front, g);
      InsertBelow(front, g, last.startedAt);
      var r := InsertByStart(front, g);
      assert InsertByStart(gs, g) == r + [last];
      assert forall k :: 0 <= k < |r| ==> (r + [last])[k] == r[k];
      assert (r + [last])[|r|] == last;
    } else {
      assert forall k :: 0 <= k < |gs| ==> (gs + [g])[k] == gs[k];
    }
  }

  /** Inserting keeps every start at most `b`. */
  lemma {:induction false} InsertBelow(gs: seq<SegmentRow>, g: SegmentRow, b: int)
    requires forall k :: 0 <= k < |gs| ==> gs[k].startedAt <= b
    requires g.startedAt <= b
    ensures forall k :: 0 <= k < |InsertByStart(gs, g)| ==> InsertByStart(gs, g)[k].startedAt <= b
  {
    if gs != [] && g.startedAt < gs[|gs| - 1].startedAt {
      var front := gs[..|gs| - 1];
      assert forall k :: 0 <= k < |front| ==> front[k] == gs[k];
      InsertBelow(front, g, b);
      var r := InsertByStart(front, g);
      assert InsertByStart(gs, g) == r + [gs[|gs| - 1]];
      var whole := r + [gs[|gs| - 1]];
      assert InsertByStart(gs, g) == whole;
      forall k | 0 <= k < |whole|
        ensures whole[k].startedAt <= b
      {
        if k < |r| {
          assert whole[k] == r[k];
          assert r[k].startedAt <= b;
        } else {
          assert whole[k] == gs[|gs| - 1];
          assert gs[|gs| - 1].startedAt <= b;
        }
      }
    } else {
      assert forall k :: 0 <= k < |gs| ==> (gs + [g])[k] == gs[k];
    }
  }

  /**
   * `.order("started_at", { ascending: true })`: the segments sorted by
   * start; segments starting together keep their table order.
   */
  function SortByStart(gs: seq<SegmentRow>): (r: seq<SegmentRow>)
    ensures multiset(r) == multiset(gs)
    ensures ByStart(r)
  {
    if gs == [] then []
    else
      assert gs == gs[..|gs| - 1] + [gs[|gs| - 1]];
      var front := SortByStart(gs[..|gs| - 1]);
      InsertKeepsOrder(front, gs[|gs| - 1]);
      InsertByStart(front, gs[|gs| - 1])
  }

  lemma {:induction false} SortKeepsRows(gs: seq<SegmentRow>, g: SegmentRow)
    ensures g in SortByStart(gs) <==> g in gs
  {
    assert g in SortByStart(gs) <==> g in multiset(SortByStart(gs));
  }

  /*
   * Figures per segment.
   */

  /** A segment's elapsed time: up to its end, or up to `now` while it is open. */
  function SegmentMs(g: SegmentRow, now: Timestamp): nat
  {
    ElapsedMs(g.startedAt, if g.endedAt.Some? then g.endedAt.value else now)
  }

  /** `mb_used ?? +(durMin * rate).toFixed(2)`: a segment's stored MB, or its estimate at `rate`. */
  function SegmentMb(g: SegmentRow, rate: nat, now: Timestamp): int
  {
    if g.mbUsed.Some? then g.mbUsed.value else EstimateMb(SegmentMs(g, now), rate)
  }

  /** Total elapsed time of the segments. */
  function SpentMs(gs: seq<SegmentRow>, now: Timestamp): nat
  {
    if gs == [] then 0 else SpentMs(gs[..|gs| - 1], now) + SegmentMs(gs[|gs| - 1], now)
  }

  /** Total MB of the segments, every estimate at `rate`. */
  function SpentMb(gs: seq<SegmentRow>, rate: nat, now: Timestamp): int
  {
    if gs == [] then 0 else SpentMb(gs[..|gs| - 1], rate, now) + SegmentMb(gs[|gs| - 1], rate, now)
  }

  /** Adding one segment anywhere adds its own figures to the totals. */
  lemma {:induction false} SpentInsert(gs: seq<SegmentRow>, g: SegmentRow, rate: nat, now: Timestamp)
    ensures SpentMs(InsertByStart(gs, g), now) == SpentMs(gs, now) + SegmentMs(g, now)
    ensures SpentMb(InsertByStart(gs, g), rate, now) == SpentMb(gs, rate, now) + SegmentMb(g, rate, now)
  {
    var r := InsertByStart(gs, g);
    if gs == [] || gs[|gs| - 1].startedAt <= g.startedAt {
      assert r[..|r| - 1] == gs;
    } else {
      var front := InsertByStart(gs[..|gs| - 1], g);
      SpentInsert(gs[..|gs| - 1], g, rate, now);
      assert r[..|r| - 1] == front;
    }
  }

  /** The totals do not depend on the order the segments are read in. */
  lemma {:induction false} SpentSorted(gs: seq<SegmentRow>, rate: nat, now: Timestamp)
    ensures SpentMs(SortByStart(gs), now) == SpentMs(gs, now)
    ensures SpentMb(SortByStart(gs), rate, now) == SpentMb(gs, rate, now)
  {
    if gs != [] {
      SpentSorted(gs[..|gs| - 1], rate, now);
      SpentInsert(SortByStart(gs[..|gs| - 1]), gs[|gs| - 1], rate, now);
    }
  }

  /*
   * buildSessionSummary.
   */

  /** `dev?.mb_per_minute ?? 2`: the rate of device `id`, the fallback when it or its rate is missing. */
  function RateFor(ds: seq<DeviceRow>, id: string): nat
  {
    match FindDevice(ds, id)
    case None => FallbackMbPerMinute
    case Some(d) => RateOrFallback(d.mbPerMinute)
  }

  function SegmentCharge(ds: seq<DeviceRow>, g: SegmentRow, now: Timestamp): Charge
  {
    Charge(g.deviceId, SegmentMs(g, now), SegmentMb(g, RateFor(ds, g.deviceId), now))
  }

  function Charges(ds: seq<DeviceRow>, gs: seq<SegmentRow>, now: Timestamp): seq<Charge>
  {
    seq(|gs|, k requires 0 <= k < |gs| => SegmentCharge(ds, gs[k], now))
  }

  /** One empty accumulator per device row, in table order. */
  function Zero(ds: seq<DeviceRow>): seq<DeviceTotal>
  {
    seq(|ds|, i requires 0 <= i < |ds| => DeviceTotal(ds[i].id, ds[i].name, 0, 0))
  }

  /** The last segment without `ended_at` in the order given, if any. */
  function LastOpen(gs: seq<SegmentRow>): (r: Option<SegmentRow>)
    ensures r.Some? ==> r.value in gs && r.value.endedAt.None?
    ensures r.None? <==> forall g :: g in gs ==> g.endedAt.Some?
  {
    if gs == [] then None
    else
      var last := gs[|gs| - 1];
      assert gs == gs[..|gs| - 1] + [last];
      if last.endedAt.None? then Some(last) else LastOpen(gs[..|gs| - 1])
  }

  /** A segment without `ended_at` after which no other open segment comes is the last open one. */
  lemma {:induction false} LastOpenIsLatest(gs: seq<SegmentRow>)
    requires ByStart(gs)
    ensures LastOpen(gs).Some? ==> forall g :: g in gs && g.endedAt.None? ==> g.startedAt <= LastOpen(gs).value.startedAt
  {
    if gs != [] && gs[|gs| - 1].endedAt.Some? {
      var front := gs[..|gs| - 1];
      assert ByStart(front);
      LastOpenIsLatest(front);
      assert forall g :: g in gs && g.endedAt.None? ==> g in front by {
        assert gs == front + [gs[|gs| - 1]];
      }
    }
  }

  /** The live figure: the last open segment's MB so far at its device's rate; 0 without one. */
  function Live(ds: seq<DeviceRow>, gs: seq<SegmentRow>, now: Timestamp): nat
  {
    match LastOpen(gs)
    case None => 0
    case Some(g) => EstimateMb(ElapsedMs(g.startedAt, now), RateFor(ds, g.deviceId))
  }

  function CurrentId(gs: seq<SegmentRow>): Option<string>
  {
    match LastOpen(gs)
    case None => None
    case Some(g) => Some(g.deviceId)
  }

  /** A device row as the API shows it. */
  datatype DeviceView = DeviceView(id: string, name: string, status: DeviceStatus, mbPerMinute: nat)

  function View(d: DeviceRow): DeviceView
  {
    DeviceView(d.id, d.name, d.status, ListedRate(d.mbPerMinute))
  }

  function Listing(ds: seq<DeviceRow>): (r: seq<DeviceView>)
    ensures |r| == |ds| && forall i :: 0 <= i < |ds| ==> r[i] == View(ds[i])
  {
    seq(|ds|, i requires 0 <= i < |ds| => View(ds[i]))
  }

  datatype DbSummaryView = DbSummaryView(devices: seq<DeviceView>, session: Option<SessionRow>, summary: Summary)

  /** The active session's segments in the order the summary walks them. */
  function Walked(t: Tables): seq<SegmentRow>
  {
    match ActiveSession(t.sessions)
    case None => []
    case Some(a) => SortByStart(OfSession(t.segments, a.id))
  }

  /** buildSessionSummary on the tables. */
  function SummaryOf(t: Tables, now: Timestamp): DbSummaryView
  {
    var segs := Walked(t);
    DbSummaryView(
      Listing(t.devices),
      ActiveSession(t.sessions),
      Report(Accumulate(Zero(t.devices), Charges(t.devices, segs, now)), CurrentId(segs), Live(t.devices, segs, now)))
  }

  /*
   * getDeviceProfile.
   */

  /** A session's entry in the grouping: its segments in walk order and their latest start, -1 before any. */
  datatype Group = Group(sessionId: string, segs: seq<SegmentRow>, maxStart: int)

  /** The sessions in order of first appearance: the grouping map's insertion order. */
  function FirstSeen(gs: seq<SegmentRow>): (r: seq<string>)
    ensures forall i, j :: 0 <= i < j < |r| ==> r[i] != r[j]
  {
    if gs == [] then []
    else
      var last := gs[|gs| - 1];
      assert gs == gs[..|gs| - 1] + [last];
      var f := FirstSeen(gs[..|gs| - 1]);
      if last.sessionId in f then f else f + [last.sessionId]
  }

  /** `Math.max` over the starts of session `sid`'s segments, from -1. */
  function Latest(gs: seq<SegmentRow>, sid: string): (r: int)
    ensures r >= -1
    ensures forall g :: g in gs && g.sessionId == sid ==> g.startedAt <= r
    ensures r == -1 || exists g :: g in gs && g.sessionId == sid && g.startedAt == r
  {
    if gs == [] then -1
    else
      var last := gs[|gs| - 1];
      assert gs == gs[..|gs| - 1] + [last];
      var m := Latest(gs[..|gs| - 1], sid);
      if last.sessionId == sid && last.startedAt > m then last.startedAt else m
  }

  /** One entry per session, in order of first appearance. */
  function Groups(gs: seq<SegmentRow>): seq<Group>
  {
    var order := FirstSeen(gs);
    seq(|order|, i requires 0 <= i < |order| => Group(order[i], OfSession(gs, order[i]), Latest(gs, order[i])))
  }

  /** Position of the entry for session `sid`, as `bySession.get` finds it. */
  function GroupAt(groups: seq<Group>, sid: string): (r: Option<nat>)
    ensures r.Some? ==> r.value < |groups| && groups[r.value].sessionId == sid
    ensures r.None? ==> forall i :: 0 <= i < |groups| ==> groups[i].sessionId != sid
  {
    if groups == [] then None
    else if groups[0].sessionId == sid then Some(0)
    else match GroupAt(groups[1..], sid)
      case None => None
      case Some(i) => Some(i + 1)
  }

  /** The running choice of the last session: an entry's position and its latest start, -1 before any. */
  datatype Best = Best(index: Option<nat>, maxStart: int)

  /**
   * The entry with the greatest latest start: the first such in entry
   * order, since only a strictly greater start replaces the choice.
   */
  function BestOf(groups: seq<Group>): (r: Best)
    ensures r.maxStart >= -1
    ensures forall i :: 0 <= i < |groups| ==> groups[i].maxStart <= r.maxStart
    ensures r.index.Some? ==> r.index.value < |groups| && groups[r.index.value].maxStart == r.maxStart
    ensures r.index.Some? ==> forall j :: 0 <= j < r.index.value ==> groups[j].maxStart < r.maxStart
    ensures r.index.None? ==> r.maxStart == -1
  {
    if groups == [] then Best(None, -1)
    else
      var b := BestOf(groups[..|groups| - 1]);
      var last := groups[|groups| - 1];
      if last.maxStart > b.maxStart then Best(Some(|groups| - 1), last.maxStart) else b
  }

  datatype UsageTotals = UsageTotals(durationMin: nat, mbUsed: int)

  datatype LastSessionView = LastSessionView(id: string, startedAt: Timestamp, endedAt: Option<Timestamp>, durationMin: nat, mbUsed: int)

  datatype CurrentSessionView = CurrentSessionView(sessionId: string, startedAt: Timestamp, durationSoFarMin: nat, liveMbUsed: nat)

  datatype Profile = Profile(device: DeviceView, totalsTillNow: UsageTotals, lastSession: Option<LastSessionView>, currentSession: Option<CurrentSessionView>)

  /** The last session's row with its segments' time and MB on this device, when the row exists. */
  function LastSessionOf(ss: seq<SessionRow>, g: Group, rate: nat, now: Timestamp): Option<LastSessionView>
  {
    match FindSession(ss, g.sessionId)
    case None => None
    case Some(row) => Some(LastSessionView(row.id, row.startedAt, row.endedAt, RoundedMinutes(SpentMs(g.segs, now)), SpentMb(g.segs, rate, now)))
  }

  /** The active session, when its open segment is on device `id`, with that segment's time and MB so far. */
  function CurrentSessionOf(t: Tables, id: string, rate: nat, now: Timestamp): Option<CurrentSessionView>
  {
    match ActiveSession(t.sessions)
    case None => None
    case Some(a) =>
      match OpenSegment(t.segments, a.id)
      case None => None
      case Some(o) =>
        if o.deviceId != id then None
        else
          var ms := ElapsedMs(o.startedAt, now);
          Some(CurrentSessionView(a.id, o.startedAt, RoundedMinutes(ms), EstimateMb(ms, rate)))
  }

  /** getDeviceProfile on the tables: nothing for an unknown id. */
  function ProfileOf(t: Tables, id: string, now: Timestamp): Option<Profile>
  {
    match FindDevice(t.devices, id)
    case None => None
    case Some(device) =>
      var segs := SortByStart(OfDevice(t.segments, id));
      var rate := RateOrFallback(device.mbPerMinute);
      var groups := Groups(segs);
      var best := BestOf(groups);
      var last :=
        if best.index.Some? && groups[best.index.value].sessionId != "" then LastSessionOf(t.sessions, groups[best.index.value], rate, now)
        else None;
      Some(Profile(View(device), UsageTotals(RoundedMinutes(SpentMs(segs, now)), SpentMb(segs, rate, now)), last, CurrentSessionOf(t, id, rate, now)))
  }

  /*
   * What the summary and the profile promise.
   */

  /**
   * The summary's current device is that of the active session's open
   * segment starting last (the last open one in walk order), and there is
   * none, with a live figure of 0, when the active session has no open
   * segment.
   */
  lemma {:induction false} SummaryCurrentIsLatestOpen(t: Tables, now: Timestamp)
    ensures var v := SummaryOf(t, now).summary;
      && (v.currentDeviceId.None? <==>
            ActiveSession(t.sessions).None? ||
            forall g :: g in t.segments && g.sessionId == ActiveSession(t.sessions).value.id ==> g.endedAt.Some?)
      && (v.currentDeviceId.None? ==> v.liveMbUsed == 0)
      && (v.currentDeviceId.Some? ==>
            exists g :: g in t.segments && g.sessionId == ActiveSession(t.sessions).value.id && g.endedAt.None?
              && g.deviceId == v.currentDeviceId.value
              && v.liveMbUsed == EstimateMb(ElapsedMs(g.startedAt, now), RateFor(t.devices, g.deviceId))
              && forall h :: h in t.segments && h.sessionId == g.sessionId && h.endedAt.None? ==> h.startedAt <= g.startedAt)
  {
    var segs := Walked(t);
    if ActiveSession(t.sessions).Some? {
      var a := ActiveSession(t.sessions).value;
      var own := OfSession(t.segments, a.id);
      forall g
        ensures g in segs <==> g in t.segments && g.sessionId == a.id
      {
        SortKeepsRows(own, g);
      }
      LastOpenIsLatest(segs);
    }
  }

  /**
   * The summary's totals: the MB of every segment on a listed device, plus
   * the live figure once more; segments on devices missing from the table
   * add nothing. The detail rows are in id order and name listed devices.
   */
  lemma {:induction false} SummaryTotals(t: Tables, now: Timestamp)
    requires Ascending(DeviceIds(t.devices))
    requires forall g :: g in t.segments && g.mbUsed.Some? ==> g.mbUsed.value >= 0
    ensures var segs := Walked(t);
      var v := SummaryOf(t, now);
      && v.devices == Listing(t.devices)
      && v.session == ActiveSession(t.sessions)
      && v.summary.totalMb == KnownMb(Charges(t.devices, segs, now), set d | d in t.devices :: d.id) + v.summary.liveMbUsed
      && (forall i, j :: 0 <= i < j < |v.summary.perDevice| ==> Below(v.summary.perDevice[i].deviceId, v.summary.perDevice[j].deviceId))
      && (forall u :: u in v.summary.perDevice ==> exists d :: d in t.devices && u.deviceId == d.id && u.name == d.name)
  {
    var segs := Walked(t);
    var cs := Charges(t.devices, segs, now);
    var totals := Accumulate(Zero(t.devices), cs);
    WalkedChargesNonNegative(t, now);
    DeviceTotalsFacts(t.devices, cs);
    var v := SummaryOf(t, now).summary;
    ReportFacts(totals, v.currentDeviceId, v.liveMbUsed);
    forall u | u in v.perDevice
      ensures exists d :: d in t.devices && u.deviceId == d.id && u.name == d.name
    {
      var w :| w in totals && (w.ms > 0 || w.mb > 0) && u == DeviceUsage(w.deviceId, w.name, RoundedMinutes(w.ms), w.mb);
      var i :| 0 <= i < |totals| && totals[i] == w;
      assert t.devices[i] in t.devices;
    }
  }

  /** The walk charges no negative MB when no stored figure is negative. */
  lemma {:induction false} WalkedChargesNonNegative(t: Tables, now: Timestamp)
    requires forall g :: g in t.segments && g.mbUsed.Some? ==> g.mbUsed.value >= 0
    ensures var cs := Charges(t.devices, Walked(t), now); forall k :: 0 <= k < |cs| ==> cs[k].mb >= 0
  {
    var segs := Walked(t);
    forall k | 0 <= k < |segs|
      ensures SegmentCharge(t.devices, segs[k], now).mb >= 0
    {
      SortKeepsRows(OfSession(t.segments, ActiveSession(t.sessions).value.id), segs[k]);
    }
  }

  /**
   * The accumulators over the device rows, in id order: each names its row,
   * none goes negative, and together they hold the MB of every charge on a
   * listed device.
   */
  lemma {:induction false} DeviceTotalsFacts(ds: seq<DeviceRow>, cs: seq<Charge>)
    requires Ascending(DeviceIds(ds))
    requires forall k :: 0 <= k < |cs| ==> cs[k].mb >= 0
    ensures SumMb(Accumulate(Zero(ds), cs)) == KnownMb(cs, set d | d in ds :: d.id)
    ensures forall i :: 0 <= i < |Accumulate(Zero(ds), cs)| ==> Accumulate(Zero(ds), cs)[i].mb >= 0
    ensures TotalsAscending(Accumulate(Zero(ds), cs))
    ensures |Accumulate(Zero(ds), cs)| == |ds|
    ensures forall i :: 0 <= i < |ds| ==> Accumulate(Zero(ds), cs)[i].deviceId == ds[i].id && Accumulate(Zero(ds), cs)[i].name == ds[i].name
  {
    var zero := Zero(ds);
    var totals := Accumulate(zero, cs);
    AscendingZero(ds);
    AccumulatedMb(zero, cs);
    ZeroIds(ds);
    forall i | 0 <= i < |totals|
      ensures totals[i].mb >= 0
    {
      ChargedMbNonNegative(cs, zero[i].deviceId);
    }
    assert forall i :: 0 <= i < |totals| ==> totals[i].deviceId == DeviceIds(ds)[i];
  }

  /** The accumulators' ids are the device ids. */
  lemma {:induction false} ZeroIds(ds: seq<DeviceRow>)
    ensures TotalIds(Zero(ds)) == set d | d in ds :: d.id
  {
    var zero := Zero(ds);
    forall x | x in TotalIds(zero)
      ensures x in set d | d in ds :: d.id
    {
      var i :| 0 <= i < |zero| && zero[i].deviceId == x;
      assert ds[i] in ds;
    }
    forall x | x in set d | d in ds :: d.id
      ensures x in TotalIds(zero)
    {
      var i :| 0 <= i < |ds| && ds[i].id == x;
      assert zero[i] in zero;
    }
  }

  /** The profile exists exactly for a listed device, and its totals cover every segment on it, in any order. */
  lemma {:induction false} ProfileTotals(t: Tables, id: string, now: Timestamp)
    ensures ProfileOf(t, id, now).None? <==> forall d :: d in t.devices ==> d.id != id
    ensures ProfileOf(t, id, now).Some? ==>
      var rate := RateOrFallback(FindDevice(t.devices, id).value.mbPerMinute);
      ProfileOf(t, id, now).value.totalsTillNow ==
        UsageTotals(RoundedMinutes(SpentMs(OfDevice(t.segments, id), now)), SpentMb(OfDevice(t.segments, id), rate, now))
  {
    if FindDevice(t.devices, id).Some? {
      SpentSorted(OfDevice(t.segments, id), RateOrFallback(FindDevice(t.devices, id).value.mbPerMinute), now);
    }
  }

  /** A listed device no segment was ever on has zero totals, no last session and no current session. */
  lemma {:induction false} UnusedDeviceProfile(t: Tables, id: string, now: Timestamp)
    requires exists d :: d in t.devices && d.id == id
    requires forall g :: g in t.segments ==> g.deviceId != id
    ensures ProfileOf(t, id, now).Some?
    ensures var p := ProfileOf(t, id, now).value;
      p.totalsTillNow == UsageTotals(0, 0) && p.lastSession.None? && p.currentSession.None?
  {
    var own := OfDevice(t.segments, id);
    assert own == [];
    assert SortByStart(own) == [];
    assert Groups([]) == [];
  }

  /**
   * The profile's last session has a segment on the device that starts no
   * earlier than any other segment on it.
   */
  lemma {:induction false} LastSessionIsLatest(t: Tables, id: string, now: Timestamp)
    requires ProfileOf(t, id, now).Some? && ProfileOf(t, id, now).value.lastSession.Some?
    ensures var v := ProfileOf(t, id, now).value.lastSession.value;
      exists g :: g in t.segments && g.deviceId == id && g.sessionId == v.id
        && forall h :: h in t.segments && h.deviceId == id ==> h.startedAt <= g.startedAt
  {
    var own := OfDevice(t.segments, id);
    var segs := SortByStart(own);
    var groups := Groups(segs);
    var i := BestOf(groups).index.value;
    BestGroupIsLatest(segs);
    var g :| g in segs && g.sessionId == groups[i].sessionId && forall h :: h in segs ==> h.startedAt <= g.startedAt;
    SortKeepsRows(own, g);
    forall h | h in t.segments && h.deviceId == id
      ensures h.startedAt <= g.startedAt
    {
      SortKeepsRows(own, h);
    }
  }

  /** The chosen entry's session has a segment starting no earlier than any other. */
  lemma {:induction false} BestGroupIsLatest(segs: seq<SegmentRow>)
    requires BestOf(Groups(segs)).index.Some?
    ensures var groups := Groups(segs);
      exists g :: g in segs && g.sessionId == groups[BestOf(groups).index.value].sessionId
        && forall h :: h in segs ==> h.startedAt <= g.startedAt
  {
    var groups := Groups(segs);
    var order := FirstSeen(segs);
    var best := BestOf(groups);
    var i := best.index.value;
    var sid := order[i];
    assert groups[i].sessionId == sid && groups[i].maxStart == Latest(segs, sid);
    FirstSeenHasSegment(segs, sid);
    var g0 :| g0 in segs && g0.sessionId == sid;
    assert Latest(segs, sid) != -1;
    var g :| g in segs && g.sessionId == sid && g.startedAt == groups[i].maxStart;
    FirstSeenCovers(segs);
    forall h | h in segs
      ensures h.startedAt <= g.startedAt
    {
      var j :| 0 <= j < |order| && order[j] == h.sessionId;
      assert groups[j].maxStart == Latest(segs, h.sessionId);
    }
  }

  /**
   * The session getDeviceProfile picks as the last one: the entry with the
   * greatest latest start among the device's segments grouped by session.
   */
  function ChosenSession(t: Tables, id: string): Option<string>
  {
    var groups := Groups(SortByStart(OfDevice(t.segments, id)));
    var best := BestOf(groups);
    if best.index.Some? then Some(groups[best.index.value].sessionId) else None
  }

  /**
   * A session is picked exactly when some segment was on the device, and
   * the last session is reported exactly when the picked session id is
   * non-empty and has a row; its figures are the time and MB of that
   * session's segments on the device, at the device's rate.
   */
  lemma {:induction false} LastSessionReported(t: Tables, id: string, now: Timestamp)
    requires FindDevice(t.devices, id).Some?
    ensures ChosenSession(t, id).Some? <==> exists g :: g in t.segments && g.deviceId == id
    ensures ChosenSession(t, id).Some? ==>
      var sid := ChosenSession(t, id).value;
      var mine := OfSession(OfDevice(t.segments, id), sid);
      var rate := RateOrFallback(FindDevice(t.devices, id).value.mbPerMinute);
      ProfileOf(t, id, now).value.lastSession ==
        if sid == "" || FindSession(t.sessions, sid).None? then None
        else
          var row := FindSession(t.sessions, sid).value;
          Some(LastSessionView(row.id, row.startedAt, row.endedAt, RoundedMinutes(SpentMs(mine, now)), SpentMb(mine, rate, now)))
    ensures ChosenSession(t, id).None? ==> ProfileOf(t, id, now).value.lastSession.None?
  {
    var own := OfDevice(t.segments, id);
    var segs := SortByStart(own);
    var groups := Groups(segs);
    var best := BestOf(groups);
    if best.index.Some? {
      var i := best.index.value;
      var sid := groups[i].sessionId;
      assert groups[i].segs == OfSession(segs, sid);
      FilterSorted(own, sid);
      SpentSorted(OfSession(own, sid), RateOrFallback(FindDevice(t.devices, id).value.mbPerMinute), now);
      BestGroupIsLatest(segs);
      var g :| g in segs && g.sessionId == sid && forall h :: h in segs ==> h.startedAt <= g.startedAt;
      SortKeepsRows(own, g);
    }
    if exists g :: g in t.segments && g.deviceId == id {
      var g :| g in t.segments && g.deviceId == id;
      SortKeepsRows(own, g);
      BestCoversSegments(segs, g);
    }
  }

  /** Every grouped segment starts no later than the picked entry's latest start. */
  lemma {:induction false} BestCoversSegments(segs: seq<SegmentRow>, g: SegmentRow)
    requires g in segs
    ensures g.startedAt <= BestOf(Groups(segs)).maxStart
  {
    var groups := Groups(segs);
    var order := FirstSeen(segs);
    FirstSeenCovers(segs);
    var j :| 0 <= j < |order| && order[j] == g.sessionId;
    assert groups[j].maxStart == Latest(segs, g.sessionId);
  }

  /** Picking one session's segments of a sequence with one more segment. */
  lemma {:induction false} OfSessionSnoc(gs: seq<SegmentRow>, h: SegmentRow, x: string)
    ensures OfSession(gs + [h], x) == OfSession(gs, x) + (if h.sessionId == x then [h] else [])
  {
    assert (gs + [h])[..|gs|] == gs;
  }

  /** Ordering a sequence with one more segment inserts it into the ordered rest. */
  lemma {:induction false} SortSnoc(gs: seq<SegmentRow>, h: SegmentRow)
    ensures SortByStart(gs + [h]) == InsertByStart(SortByStart(gs), h)
  {
    assert (gs + [h])[..|gs|] == gs;
  }

  /** A segment starting before the last one is inserted before it. */
  lemma {:induction false} InsertBeforeLast(gs: seq<SegmentRow>, h: SegmentRow, g: SegmentRow)
    requires g.startedAt < h.startedAt
    ensures InsertByStart(gs + [h], g) == InsertByStart(gs, g) + [h]
  {
    assert (gs + [h])[..|gs|] == gs;
  }

  /** Picking one session's segments commutes with ordering by start. */
  lemma {:induction false} FilterSorted(gs: seq<SegmentRow>, x: string)
    ensures OfSession(SortByStart(gs), x) == SortByStart(OfSession(gs, x))
  {
    if gs != [] {
      var front, last := gs[..|gs| - 1], gs[|gs| - 1];
      assert gs == front + [last];
      var f := OfSession(front, x);
      FilterSorted(front, x);
      SortSnoc(front, last);
      FilterInsert(SortByStart(front), last, x);
      OfSessionSnoc(front, last, x);
      if last.sessionId == x {
        SortSnoc(f, last);
        assert SortByStart(OfSession(gs, x)) == InsertByStart(SortByStart(f), last);
      } else {
        assert OfSession(gs, x) == f;
      }
    }
  }

  /** Picking one session's segments after inserting one is inserting it into the picked ones, if it is of that session. */
  lemma {:induction false} FilterInsert(gs: seq<SegmentRow>, g: SegmentRow, x: string)
    requires ByStart(gs)
    ensures OfSession(InsertByStart(gs, g), x) == if g.sessionId == x then InsertByStart(OfSession(gs, x), g) else OfSession(gs, x)
  {
    if gs == [] || gs[|gs| - 1].startedAt <= g.startedAt {
      FilterAppend(gs, g, x);
    } else {
      var front, last := gs[..|gs| - 1], gs[|gs| - 1];
      assert gs == front + [last];
      assert ByStart(front);
      var r := InsertByStart(front, g);
      assert InsertByStart(gs, g) == r + [last];
      FilterInsert(front, g, x);
      OfSessionSnoc(r, last, x);
      OfSessionSnoc(front, last, x);
      var e := OfSession(front, x);
      assert OfSession(gs, x) == e + (if last.sessionId == x then [last] else []);
      assert OfSession(InsertByStart(gs, g), x) == OfSession(r, x) + (if last.sessionId == x then [last] else []);
      if g.sessionId == x && last.sessionId == x {
        InsertBeforeLast(e, last, g);
        assert OfSession(r, x) == InsertByStart(e, g);
      } else if g.sessionId == x {
        assert OfSession(gs, x) == e;
      } else {
        assert OfSession(r, x) == e;
      }
    }
  }

  /** The case of FilterInsert where the segment goes at the end. */
  lemma {:induction false} FilterAppend(gs: seq<SegmentRow>, g: SegmentRow, x: string)
    requires ByStart(gs)
    requires gs == [] || gs[|gs| - 1].startedAt <= g.startedAt
    ensures OfSession(InsertByStart(gs, g), x) == if g.sessionId == x then InsertByStart(OfSession(gs, x), g) else OfSession(gs, x)
  {
    var f := OfSession(gs, x);
    assert InsertByStart(gs, g) == gs + [g];
    OfSessionSnoc(gs, g, x);
    if g.sessionId == x && f != [] {
      LastStartsLatest(gs);
      assert f[|f| - 1] in f;
      assert f[|f| - 1].startedAt <= g.startedAt;
    }
  }

  /** In start order, the last segment starts no earlier than any other. */
  lemma {:induction false} LastStartsLatest(gs: seq<SegmentRow>)
    requires ByStart(gs) && gs != []
    ensures forall h :: h in gs ==> h.startedAt <= gs[|gs| - 1].startedAt
  {
    forall h | h in gs
      ensures h.startedAt <= gs[|gs| - 1].startedAt
    {
      var k :| 0 <= k < |gs| && gs[k] == h;
      if k < |gs| - 1 {
        assert gs[k].startedAt <= gs[|gs| - 1].startedAt;
      }
    }
  }

  /** A session seen has a segment. */
  lemma {:induction false} FirstSeenHasSegment(gs: seq<SegmentRow>, x: string)
    requires x in FirstSeen(gs)
    ensures exists g :: g in gs && g.sessionId == x
  {
    var front := gs[..|gs| - 1];
    assert gs == front + [gs[|gs| - 1]];
    if x in FirstSeen(front) {
      FirstSeenHasSegment(front, x);
    }
  }

  /**
   * The profile's current session is the active session, and only while
   * its open segment starting last is on the device.
   */
  lemma {:induction false} CurrentSessionOnDevice(t: Tables, id: string, now: Timestamp)
    requires ProfileOf(t, id, now).Some?
    ensures var c := ProfileOf(t, id, now).value.currentSession;
      && (c.Some? ==>
            && ActiveSession(t.sessions).Some? && c.value.sessionId == ActiveSession(t.sessions).value.id
            && exists g :: g in t.segments && g.sessionId == c.value.sessionId && g.deviceId == id && g.endedAt.None?
                 && g.startedAt == c.value.startedAt
                 && forall h :: h in t.segments && h.sessionId == g.sessionId && h.endedAt.None? ==> h.startedAt <= g.startedAt)
      && (ActiveSession(t.sessions).Some? ==>
            (forall g :: g in t.segments && g.sessionId == ActiveSession(t.sessions).value.id && g.endedAt.None? ==> g.deviceId != id) ==>
            c.None?)
      && (ActiveSession(t.sessions).None? ==> c.None?)
      && (ActiveSession(t.sessions).Some? && OpenSegment(t.segments, ActiveSession(t.sessions).value.id).Some? ==>
            var a := ActiveSession(t.sessions).value;
            var o := OpenSegment(t.segments, a.id).value;
            var ms := ElapsedMs(o.startedAt, now);
            o.deviceId == id ==>
              c == Some(CurrentSessionView(a.id, o.startedAt, RoundedMinutes(ms),
                                           EstimateMb(ms, RateOrFallback(FindDevice(t.devices, id).value.mbPerMinute)))))
  {
    if ActiveSession(t.sessions).Some? {
      var a := ActiveSession(t.sessions).value;
      var o := OpenSegment(t.segments, a.id);
      if o.Some? {
        assert o.value in t.segments;
      }
    }
  }

  /** A table keyed by id has one accumulator per id. */
  lemma {:induction false} AscendingZero(ds: seq<DeviceRow>)
    requires Ascending(DeviceIds(ds))
    ensures DistinctIds(Zero(ds))
  {
    forall i, j | 0 <= i < j < |ds|
      ensures ds[i].id != ds[j].id
    {
      assert Below(DeviceIds(ds)[i], DeviceIds(ds)[j]);
      BelowIrreflexive(ds[i].id);
    }
  }

  /** The first loop of buildSessionSummary: an empty accumulator per device row. */
  method ZeroAccumulators(ds: seq<DeviceRow>) returns (perDevice: seq<DeviceTotal>)
    ensures perDevice == Zero(ds)
  {
    perDevice := [];
    for i := 0 to |ds|
      invariant perDevice == Zero(ds[..i])
    {
      assert Zero(ds[..i + 1]) == Zero(ds[..i]) + [DeviceTotal(ds[i].id, ds[i].name, 0, 0)];
      perDevice := perDevice + [DeviceTotal(ds[i].id, ds[i].name, 0, 0)];
    }
    assert ds[..|ds|] == ds;
  }

  /**
   * The walk of buildSessionSummary: each segment's time and MB go to its
   * device's accumulator, if the device is listed, and an open segment
   * becomes the current one with its live MB.
   */
  method WalkSegments(ds: seq<DeviceRow>, segs: seq<SegmentRow>, zero: seq<DeviceTotal>, now: Timestamp)
    returns (perDevice: seq<DeviceTotal>, currentDeviceId: Option<string>, liveMbUsed: nat)
    requires DistinctIds(zero)
    ensures perDevice == Accumulate(zero, Charges(ds, segs, now))
    ensures currentDeviceId == CurrentId(segs) && liveMbUsed == Live(ds, segs, now)
  {
    perDevice, currentDeviceId, liveMbUsed := zero, None, 0;
    ghost var cs := Charges(ds, segs, now);
    assert cs[..0] == [];
    for k := 0 to |segs|
      invariant perDevice == Accumulate(zero, cs[..k])
      invariant currentDeviceId == CurrentId(segs[..k]) && liveMbUsed == Live(ds, segs[..k], now)
    {
      var seg := segs[k];
      var mbPerMinute, durMs, mb := SegmentFigures(ds, seg, now);
      assert cs[k] == Charge(seg.deviceId, durMs, mb);
      AccumulateStep(zero, cs, k);
      var rec := Lookup(perDevice, seg.deviceId);
      if rec.Some? {
        var r := rec.value;
        perDevice := perDevice[r := perDevice[r].(ms := perDevice[r].ms + durMs, mb := perDevice[r].mb + mb)];
      }
      LastOpenStep(ds, segs, k, now);
      if seg.endedAt.None? {
        currentDeviceId := Some(seg.deviceId);
        liveMbUsed := EstimateMb(ElapsedMs(seg.startedAt, now), mbPerMinute);
      }
    }
    assert cs[..|segs|] == cs && segs[..|segs|] == segs;
  }

  /** One segment's device rate, elapsed time and MB, as the summary loop works them out. */
  method SegmentFigures(ds: seq<DeviceRow>, seg: SegmentRow, now: Timestamp) returns (mbPerMinute: nat, durMs: nat, mb: int)
    ensures mbPerMinute == RateFor(ds, seg.deviceId)
    ensures Charge(seg.deviceId, durMs, mb) == SegmentCharge(ds, seg, now)
  {
    var dev := FindDevice(ds, seg.deviceId);
    mbPerMinute := if dev.Some? then RateOrFallback(dev.value.mbPerMinute) else FallbackMbPerMinute;
    var end := if seg.endedAt.Some? then seg.endedAt.value else now;
    durMs := ElapsedMs(seg.startedAt, end);
    mb := if seg.mbUsed.Some? then seg.mbUsed.value else EstimateMb(durMs, mbPerMinute);
  }

  /** One more segment becomes the current one if it is open; otherwise the current one stays. */
  lemma {:induction false} LastOpenStep(ds: seq<DeviceRow>, segs: seq<SegmentRow>, k: nat, now: Timestamp)
    requires k < |segs|
    ensures CurrentId(segs[..k + 1]) == if segs[k].endedAt.None? then Some(segs[k].deviceId) else CurrentId(segs[..k])
    ensures Live(ds, segs[..k + 1], now) ==
      if segs[k].endedAt.None? then EstimateMb(ElapsedMs(segs[k].startedAt, now), RateFor(ds, segs[k].deviceId)) else Live(ds, segs[..k], now)
  {
    assert segs[..k + 1][..k] == segs[..k];
  }

  /** The loops of getDeviceProfile that total the segments' time and MB, each estimate at `rate`. */
  method SumSegments(segs: seq<SegmentRow>, rate: nat, now: Timestamp) returns (durMs: nat, mbSum: int)
    ensures durMs == SpentMs(segs, now) && mbSum == SpentMb(segs, rate, now)
  {
    durMs, mbSum := 0, 0;
    for k := 0 to |segs|
      invariant durMs == SpentMs(segs[..k], now) && mbSum == SpentMb(segs[..k], rate, now)
    {
      var s := segs[k];
      var end := if s.endedAt.Some? then s.endedAt.value else now;
      var dur := ElapsedMs(s.startedAt, end);
      var mb := if s.mbUsed.Some? then s.mbUsed.value else EstimateMb(dur, rate);
      assert segs[..k + 1][..k] == segs[..k];
      durMs, mbSum := durMs + dur, mbSum + mb;
    }
    assert segs[..|segs|] == segs;
  }

  /** Every segment's session is among those seen. */
  lemma {:induction false} FirstSeenCovers(gs: seq<SegmentRow>)
    ensures forall g :: g in gs ==> g.sessionId in FirstSeen(gs)
  {
    if gs != [] {
      var front := gs[..|gs| - 1];
      FirstSeenCovers(front);
      assert forall g :: g in gs ==> g in front || g == gs[|gs| - 1] by {
        assert gs == front + [gs[|gs| - 1]];
      }
    }
  }

  /** A session not seen yet has no segments and no latest start. */
  lemma {:induction false} UnseenSession(gs: seq<SegmentRow>, sid: string)
    requires sid !in FirstSeen(gs)
    ensures OfSession(gs, sid) == [] && Latest(gs, sid) == -1
  {
    FirstSeenCovers(gs);
    if OfSession(gs, sid) != [] {
      assert OfSession(gs, sid)[0] in OfSession(gs, sid);
    }
  }

  /** One more segment adds itself to its own session's segments and latest start, and to no other. */
  lemma {:induction false} SessionStep(gs: seq<SegmentRow>, k: nat, x: string)
    requires k < |gs|
    ensures OfSession(gs[..k + 1], x) == OfSession(gs[..k], x) + (if gs[k].sessionId == x then [gs[k]] else [])
    ensures Latest(gs[..k + 1], x) == if gs[k].sessionId == x && gs[k].startedAt > Latest(gs[..k], x) then gs[k].startedAt else Latest(gs[..k], x)
  {
    assert gs[..k + 1][..k] == gs[..k];
  }

  /** One more segment adds its session to the order of first appearance, unless it is there already. */
  lemma {:induction false} FirstSeenStep(gs: seq<SegmentRow>, k: nat)
    requires k < |gs|
    ensures FirstSeen(gs[..k + 1]) ==
      if gs[k].sessionId in FirstSeen(gs[..k]) then FirstSeen(gs[..k]) else FirstSeen(gs[..k]) + [gs[k].sessionId]
  {
    assert gs[..k + 1][..k] == gs[..k];
  }

  /** A segment of a session not seen before opens a new entry at the end. */
  lemma {:induction false} GroupsStepNew(gs: seq<SegmentRow>, k: nat)
    requires k < |gs| && GroupAt(Groups(gs[..k]), gs[k].sessionId).None?
    ensures Groups(gs[..k + 1]) == Groups(gs[..k]) + [Group(gs[k].sessionId, [gs[k]], gs[k].startedAt)]
  {
    var front, g := gs[..k], gs[k];
    var gr, gr' := Groups(front), Groups(gs[..k + 1]);
    var order := FirstSeen(front);
    assert gs[..k + 1][..k] == front;
    assert forall i :: 0 <= i < |order| ==> gr[i].sessionId == order[i];
    UnseenSession(front, g.sessionId);
    SessionStep(gs, k, g.sessionId);
    assert g.sessionId !in order;
    FirstSeenStep(gs, k);
    assert FirstSeen(gs[..k + 1]) == order + [g.sessionId];
    var want := gr + [Group(g.sessionId, [g], g.startedAt)];
    assert |gr'| == |want|;
    forall i | 0 <= i < |gr'|
      ensures gr'[i] == want[i]
    {
      var x := (order + [g.sessionId])[i];
      assert gr'[i] == Group(x, OfSession(gs[..k + 1], x), Latest(gs[..k + 1], x));
      if i < |order| {
        assert x == order[i] && x != g.sessionId;
        SessionStep(gs, k, x);
        assert want[i] == gr[i] == Group(x, OfSession(front, x), Latest(front, x));
      }
    }
  }

  /** A segment of a session seen before joins that session's entry. */
  lemma {:induction false} GroupsStepJoin(gs: seq<SegmentRow>, k: nat, i: nat)
    requires k < |gs| && GroupAt(Groups(gs[..k]), gs[k].sessionId) == Some(i)
    ensures var gr := Groups(gs[..k]);
      Groups(gs[..k + 1]) == gr[i := Group(gs[k].sessionId, gr[i].segs + [gs[k]], if gs[k].startedAt > gr[i].maxStart then gs[k].startedAt else gr[i].maxStart)]
  {
    var front, g := gs[..k], gs[k];
    var gr, gr' := Groups(front), Groups(gs[..k + 1]);
    var order := FirstSeen(front);
    assert gs[..k + 1][..k] == front;
    assert order[i] == g.sessionId;
    FirstSeenStep(gs, k);
    assert FirstSeen(gs[..k + 1]) == order;
    var want := gr[i := Group(g.sessionId, gr[i].segs + [g], if g.startedAt > gr[i].maxStart then g.startedAt else gr[i].maxStart)];
    assert |gr'| == |want|;
    forall j | 0 <= j < |order|
      ensures gr'[j] == want[j]
    {
      var x := order[j];
      SessionStep(gs, k, x);
      assert gr'[j] == Group(x, OfSession(gs[..k + 1], x), Latest(gs[..k + 1], x));
      assert gr[j] == Group(x, OfSession(front, x), Latest(front, x));
      if j != i {
        assert x != g.sessionId;
      }
    }
  }

  /** The grouping loop of getDeviceProfile: `bySession`, its entries in insertion order. */
  method GroupBySession(segs: seq<SegmentRow>) returns (groups: seq<Group>)
    ensures groups == Groups(segs)
  {
    groups := [];
    for k := 0 to |segs|
      invariant groups == Groups(segs[..k])
    {
      var s := segs[k];
      var at := GroupAt(groups, s.sessionId);
      if at.Some? {
        GroupsStepJoin(segs, k, at.value);
      } else {
        GroupsStepNew(segs, k);
      }
      var entry := if at.Some? then groups[at.value] else Group(s.sessionId, [], -1);
      entry := entry.(segs := entry.segs + [s], maxStart := if s.startedAt > entry.maxStart then s.startedAt else entry.maxStart);
      groups := if at.Some? then groups[at.value := entry] else groups + [entry];
    }
    assert segs[..|segs|] == segs;
  }

  /** The loop of getDeviceProfile over the entries: a strictly later start replaces the choice. */
  method PickLatest(groups: seq<Group>) returns (best: Best)
    ensures best == BestOf(groups)
  {
    best := Best(None, -1);
    for i := 0 to |groups|
      invariant best == BestOf(groups[..i])
    {
      assert groups[..i + 1][..i] == groups[..i];
      if groups[i].maxStart > best.maxStart {
        best := Best(Some(i), groups[i].maxStart);
      }
    }
    assert groups[..|groups|] == groups;
  }

  class Database {
    var devices: seq<DeviceRow>
    var sessions: seq<SessionRow>
    var segments: seq<SegmentRow>

    /** The devices table is keyed by id and read in id order. */
    ghost predicate Valid()
      reads this
    {
      Ascending(DeviceIds(devices))
    }

    function Snapshot(): Tables
      reads this
    {
      Tables(devices, sessions, segments)
    }

    constructor (ds: seq<DeviceRow>, ss: seq<SessionRow>, gs: seq<SegmentRow>)
      requires Ascending(DeviceIds(ds))
      ensures Valid() && Snapshot() == Tables(ds, ss, gs)
    {
      devices, sessions, segments := ds, ss, gs;
    }

    /** markDeviceStatus: every row with id `id` gets status `st`. */
    method MarkDeviceStatus(id: string, st: DeviceStatus)
      requires Valid()
      modifies this
      ensures Valid()
      ensures devices == SetStatus(old(devices), id, st) && sessions == old(sessions) && segments == old(segments)
    {
      SetStatusKeepsIds(devices, id, st);
      devices := SetStatus(devices, id, st);
    }

    /** resetAll: delete the segments, then the sessions, each but a row with id NilId, then upsert the seed devices. */
    method ResetAll()
      requires Valid()
      modifies this
      ensures Valid()
      ensures Snapshot() == ResetTables(old(Snapshot()))
    {
      segments := SparedSegments(segments);
      sessions := SparedSessions(sessions);
      devices := UpsertAll(devices, SeedRows());
    }

    /**
     * startSession: `sid` and `segId` are the ids the database generates
     * for the inserted session and segment.
     */
    method StartSession(now: Timestamp, sid: string, segId: string) returns (s: SessionRow)
      requires Valid()
      modifies this
      ensures Valid()
      ensures StartOn(old(Snapshot()), now, sid, segId) == Started(Snapshot(), s)
      ensures ActiveSession(old(sessions)).Some? ==> s == ActiveSession(old(sessions)).value && Snapshot() == old(Snapshot())
    {
      var existing := ActiveSession(sessions);
      if existing.Some? {
        return existing.value;
      }
      s := SessionRow(sid, now, None);
      sessions := sessions + [s];
      var device := PickAvailableDevice(devices);
      if device.Some? {
        MarkDeviceStatus(device.value.id, Busy);
        segments := segments + [SegmentRow(segId, s.id, device.value.id, now, None, None)];
      }
    }

    /**
     * stopCurrentDeviceAndAutoswitch: `segId` is the id the database
     * generates for the segment it opens, if it opens one.
     */
    method StopCurrentDeviceAndAutoswitch(now: Timestamp, segId: string) returns (r: StopOutcome)
      requires Valid()
      modifies this
      ensures Valid()
      ensures StopOn(old(Snapshot()), now, segId) == StopStep(Snapshot(), r)
      ensures ActiveSession(old(sessions)).None? ==> r == Done(None, None) && Snapshot() == old(Snapshot())
      ensures ActiveSession(old(sessions)).Some? && OpenSegment(old(segments), ActiveSession(old(sessions)).value.id).None? ==>
        r == Done(ActiveSession(old(sessions)), None) && Snapshot() == old(Snapshot())
      ensures r.DeviceRowMissing? ==> Snapshot() == old(Snapshot())
    {
      var session := ActiveSession(sessions);
      if session.None? {
        return Done(None, None);
      }
      var current := OpenSegment(segments, session.value.id);
      if current.None? {
        return Done(session, None);
      }
      var deviceRow := FindDevice(devices, current.value.deviceId);
      if deviceRow.None? {
        return DeviceRowMissing;
      }
      MarkDeviceStatus(current.value.deviceId, Stopped);
      var mbPerMinute := RateOrFallback(deviceRow.value.mbPerMinute);
      var mbUsed := EstimateMb(ElapsedMs(current.value.startedAt, now), mbPerMinute);
      segments := CloseSegment(segments, current.value.id, now, mbUsed);
      var next := PickAvailableDevice(devices);
      if next.Some? {
        MarkDeviceStatus(next.value.id, Busy);
        segments := segments + [SegmentRow(segId, session.value.id, next.value.id, now, None, None)];
        return Done(session, Some(next.value.id));
      }
      return Done(session, None);
    }

    /** buildSessionSummary: the device listing, the active session, and its usage summary. */
    method BuildSessionSummary(now: Timestamp) returns (v: DbSummaryView)
      requires Valid()
      ensures v == SummaryOf(Snapshot(), now)
    {
      var session := ActiveSession(sessions);
      var segs: seq<SegmentRow> := [];
      if session.Some? {
        segs := SortByStart(OfSession(segments, session.value.id));
      }
      AscendingZero(devices);
      var perDevice := ZeroAccumulators(devices);
      var currentDeviceId, liveMbUsed;
      perDevice, currentDeviceId, liveMbUsed := WalkSegments(devices, segs, perDevice, now);
      v := DbSummaryView(Listing(devices), session, Report(perDevice, currentDeviceId, liveMbUsed));
    }

    /**
     * getDeviceProfile: nothing for an unknown device; otherwise its totals
     * over every segment on it, the last session that used it, and the
     * active session while its open segment is on it.
     */
    method GetDeviceProfile(id: string, now: Timestamp) returns (p: Option<Profile>)
      ensures p == ProfileOf(Snapshot(), id, now)
    {
      var device := FindDevice(devices, id);
      if device.None? {
        return None;
      }
      var segsAll := SortByStart(OfDevice(segments, id));
      var mbPerMinute := RateOrFallback(device.value.mbPerMinute);
      var totalMs, totalMb := SumSegments(segsAll, mbPerMinute, now);
      var groups := GroupBySession(segsAll);
      var best := PickLatest(groups);
      var lastSession: Option<LastSessionView> := None;
      if best.index.Some? && groups[best.index.value].sessionId != "" {
        var entry := groups[best.index.value];
        var sessRow := FindSession(sessions, entry.sessionId);
        var durSum, mbSum := SumSegments(entry.segs, mbPerMinute, now);
        if sessRow.Some? {
          var row := sessRow.value;
          lastSession := Some(LastSessionView(row.id, row.startedAt, row.endedAt, RoundedMinutes(durSum), mbSum));
        }
      }
      var currentSession: Option<CurrentSessionView> := None;
      var active := ActiveSession(sessions);
      if active.Some? {
        var open := OpenSegment(segments, active.value.id);
        if open.Some? && open.value.deviceId == id {
          var ms := ElapsedMs(open.value.startedAt, now);
          currentSession := Some(CurrentSessionView(active.value.id, open.value.startedAt, RoundedMinutes(ms), EstimateMb(ms, mbPerMinute)));
        }
      }
      return Some(Profile(View(device.value), UsageTotals(RoundedMinutes(totalMs), totalMb), lastSession, currentSession));
    }
  }
}
