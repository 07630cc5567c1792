/**
 * The in-memory session store: three devices and at most one session,
 * held in one store object whose fields every operation updates in place.
 * The clock is the `now` parameter of each operation, and the random
 * session id is the `newId` parameter of StartSession.
 */
module SessionStore {
  import opened Ids
  import opened Usage

  datatype Device = Device(id: string, name: string, status: DeviceStatus, mbPerMinute: nat)

  /** One stretch of the session on one device; open while `endedAt` is absent. */
  datatype Segment = Segment(deviceId: string, startedAt: Timestamp, endedAt: Option<Timestamp>, mbUsed: Option<int>)

  datatype Session = Session(id: string, startedAt: Timestamp, endedAt: Option<Timestamp>, segments: seq<Segment>)

  datatype StopResult = StopResult(session: Option<Session>, switchedTo: Option<string>)

  datatype SummaryView = SummaryView(devices: seq<Device>, session: Option<Session>, summary: Summary)

  function InitialDevices(): seq<Device>
  {
    [ Device("dev-a", "Device A", Available, 3),
      Device("dev-b", "Device B", Available, 2),
      Device("dev-c", "Device C", Available, 4) ]
  }

  function DeviceIds(ds: seq<Device>): seq<string>
  {
    seq(|ds|, i requires 0 <= i < |ds| => ds[i].id)
  }

  function SegmentDeviceIds(segs: seq<Segment>): seq<string>
  {
    seq(|segs|, k requires 0 <= k < |segs| => segs[k].deviceId)
  }

  function Segments(s: Option<Session>): seq<Segment>
  {
    if s.Some? then s.value.segments else []
  }

  /** Position of the first device with id `id`, as `devices.find(d => d.id === id)` locates it. */
  function IndexOf(ds: seq<Device>, id: string): (r: Option<nat>)
    ensures r.Some? ==> r.value < |ds| && ds[r.value].id == id && forall j :: 0 <= j < r.value ==> ds[j].id != id
    ensures r.None? ==> forall j :: 0 <= j < |ds| ==> ds[j].id != id
  {
    if ds == [] then None
    else if ds[0].id == id then Some(0)
    else match IndexOf(ds[1..], id)
      case None => None
      case Some(k) => Some(k + 1)
  }

  /** pickAvailableDevice: position of the first `available` device in array order, if any. */
  function PickAvailableDevice(ds: seq<Device>): (r: Option<nat>)
    ensures r.Some? ==> r.value < |ds| && ds[r.value].status == Available
    ensures r.Some? ==> forall j :: 0 <= j < r.value ==> ds[j].status != Available
    ensures r.None? ==> forall j :: 0 <= j < |ds| ==> ds[j].status != Available
  {
    if ds == [] then None
    else if ds[0].status == Available then Some(0)
    else match PickAvailableDevice(ds[1..])
      case None => None
      case Some(k) => Some(k + 1)
  }

  /** The rate of device `id`, or the fallback rate when no device has that id. */
  function RateOf(ds: seq<Device>, id: string): nat
  {
    match IndexOf(ds, id)
    case Some(i) => ds[i].mbPerMinute
    case None => FallbackMbPerMinute
  }

  /** The devices after the one `find` locates by `id` has its status set to `st`. */
  function WithStatus(ds: seq<Device>, id: string, st: DeviceStatus): seq<Device>
  {
    match IndexOf(ds, id)
    case Some(i) => ds[i := ds[i].(status := st)]
    case None => ds
  }

  /** getCurrentSegment: the last segment, unless it has ended. */
  function CurrentSegment(s: Option<Session>): (r: Option<Segment>)
    ensures r.Some? ==> |Segments(s)| > 0 && r.value == Segments(s)[|Segments(s)| - 1] && r.value.endedAt.None?
    ensures r.None? ==> Segments(s) == [] || Segments(s)[|Segments(s)| - 1].endedAt.Some?
  {
    if s.None? || |s.value.segments| == 0 then None
    else
      var last := s.value.segments[|s.value.segments| - 1];
      if last.endedAt.Some? then None else Some(last)
  }

  /** A segment closed at `end`, its MB frozen at the estimate for its own duration. */
  function Closed(seg: Segment, end: Timestamp, rate: nat): Segment
  {
    seg.(endedAt := Some(end), mbUsed := Some(EstimateMb(ElapsedMs(seg.startedAt, end), rate)))
  }

  /** The device currently serving the segments: the last one's, while it is open. */
  function OpenDevice(segs: seq<Segment>): Option<string>
  {
    if segs != [] && segs[|segs| - 1].endedAt.None? then Some(segs[|segs| - 1].deviceId) else None
  }

  /** The seed devices, each with whatever status: same ids, names, rates and order. */
  ghost predicate SeedRegistry(ds: seq<Device>)
  {
    |ds| == |InitialDevices()| &&
    forall i :: 0 <= i < |ds| ==> ds[i] == InitialDevices()[i].(status := ds[i].status)
  }

  /** Only the last segment may be open. */
  ghost predicate OnlyLastOpen(segs: seq<Segment>)
  {
    forall k :: 0 <= k < |segs| - 1 ==> segs[k].endedAt.Some?
  }

  /** A segment holds its MB exactly once it is closed, and that figure is never negative. */
  ghost predicate MbOnceClosed(segs: seq<Segment>)
  {
    forall k :: 0 <= k < |segs| ==>
      (segs[k].mbUsed.Some? <==> segs[k].endedAt.Some?) && (segs[k].mbUsed.Some? ==> segs[k].mbUsed.value >= 0)
  }

  /** No two devices share an id. */
  ghost predicate UniqueIds(ds: seq<Device>)
  {
    forall i, j :: 0 <= i < |ds| && 0 <= j < |ds| && ds[i].id == ds[j].id ==> i == j
  }

  /** Every segment is on a device `find` can locate. */
  ghost predicate Registered(ds: seq<Device>, segs: seq<Segment>)
  {
    forall k :: 0 <= k < |segs| ==> IndexOf(ds, segs[k].deviceId).Some?
  }

  /** No device serves the session twice. */
  ghost predicate ServedOnce(segs: seq<Segment>)
  {
    forall k, l :: 0 <= k < l < |segs| ==> segs[k].deviceId != segs[l].deviceId
  }

  /** No segment is on device `id`. */
  ghost predicate Unused(segs: seq<Segment>, id: string)
  {
    forall k :: 0 <= k < |segs| ==> segs[k].deviceId != id
  }

  /** Available: never used by the session; busy: holding its open segment; stopped otherwise. */
  ghost predicate StatusesMatch(ds: seq<Device>, segs: seq<Segment>)
  {
    && (forall i :: 0 <= i < |ds| ==> (ds[i].status == Available <==> Unused(segs, ds[i].id)))
    && (forall i :: 0 <= i < |ds| ==> (ds[i].status == Busy <==> OpenDevice(segs) == Some(ds[i].id)))
  }

  /** What start, stop and reset keep true of the store's devices and session. */
  ghost predicate Consistent(ds: seq<Device>, s: Option<Session>)
  {
    && SeedRegistry(ds)
    && (s.Some? ==> s.value.endedAt.None?)
    && OnlyLastOpen(Segments(s))
    && MbOnceClosed(Segments(s))
    && Registered(ds, Segments(s))
    && ServedOnce(Segments(s))
    && StatusesMatch(ds, Segments(s))
  }

  lemma {:induction false} SeedIdsDistinct(ds: seq<Device>)
    requires SeedRegistry(ds)
    ensures UniqueIds(ds)
  {
    assert forall i :: 0 <= i < |ds| ==> ds[i].id == InitialDevices()[i].id;
  }

  lemma {:induction false} IndexOfOwnId(ds: seq<Device>, j: nat)
    requires UniqueIds(ds) && j < |ds|
    ensures IndexOf(ds, ds[j].id) == Some(j)
  {
  }

  /** `find` by id depends only on the ids, position by position. */
  lemma {:induction false} IndexOfByIds(ds: seq<Device>, ds': seq<Device>, x: string)
    requires |ds'| == |ds| && forall j :: 0 <= j < |ds| ==> ds'[j].id == ds[j].id
    ensures IndexOf(ds', x) == IndexOf(ds, x)
  {
    var a, b := IndexOf(ds', x), IndexOf(ds, x);
    if a.Some? && b.Some? {
      assert !(a.value < b.value) && !(b.value < a.value);
    }
  }

  /** Changing a status keeps every id, name and rate where it was, and `find` by any id where it was. */
  lemma {:induction false} WithStatusKeepsRegistry(ds: seq<Device>, id: string, st: DeviceStatus, x: string)
    requires SeedRegistry(ds)
    ensures SeedRegistry(WithStatus(ds, id, st))
    ensures IndexOf(WithStatus(ds, id, st), x) == IndexOf(ds, x)
  {
    IndexOfByIds(ds, WithStatus(ds, id, st), x);
  }

  /** Changing a status leaves the rate `find` gives for any id as it was. */
  lemma {:induction false} WithStatusKeepsRate(ds: seq<Device>, id: string, st: DeviceStatus, x: string)
    ensures RateOf(WithStatus(ds, id, st), x) == RateOf(ds, x)
  {
    IndexOfByIds(ds, WithStatus(ds, id, st), x);
  }

  /** Segments keeping their devices position by position keep what is registered, served once and unused. */
  lemma {:induction false} SameDevices(ds: seq<Device>, ds': seq<Device>, segs: seq<Segment>, segs': seq<Segment>)
    requires |ds'| == |ds| && forall j :: 0 <= j < |ds| ==> ds'[j].id == ds[j].id
    requires |segs'| == |segs| && forall k :: 0 <= k < |segs| ==> segs'[k].deviceId == segs[k].deviceId
    requires Registered(ds, segs) && ServedOnce(segs)
    ensures Registered(ds', segs') && ServedOnce(segs')
    ensures forall i :: 0 <= i < |ds| ==> (Unused(segs', ds[i].id) <==> Unused(segs, ds[i].id))
  {
    forall k | 0 <= k < |segs'|
      ensures IndexOf(ds', segs'[k].deviceId).Some?
    {
      IndexOfByIds(ds, ds', segs[k].deviceId);
    }
  }

  /** The new segment's device is one the session has not used, so it still serves the session once. */
  lemma {:induction false} OpenKeepsServedOnce(ds: seq<Device>, segs: seq<Segment>, i: nat, now: Timestamp)
    requires i < |ds| && Registered(ds, segs) && ServedOnce(segs) && Unused(segs, ds[i].id)
    ensures var ds' := ds[i := ds[i].(status := Busy)];
      var segs' := segs + [Segment(ds[i].id, now, None, None)];
      Registered(ds', segs') && ServedOnce(segs')
  {
    var ds' := ds[i := ds[i].(status := Busy)];
    var segs' := segs + [Segment(ds[i].id, now, None, None)];
    SameDevices(ds, ds', segs, segs'[..|segs|]);
    assert segs'[..|segs|] == segs;
  }

  /** The new device is busy and no longer unused; every other device keeps its status and its standing. */
  lemma {:induction false} OpenKeepsStatuses(ds: seq<Device>, segs: seq<Segment>, i: nat, now: Timestamp)
    requires UniqueIds(ds) && StatusesMatch(ds, segs) && OpenDevice(segs) == None
    requires i < |ds| && ds[i].status == Available
    ensures StatusesMatch(ds[i := ds[i].(status := Busy)], segs + [Segment(ds[i].id, now, None, None)])
  {
    var ds' := ds[i := ds[i].(status := Busy)];
    var segs' := segs + [Segment(ds[i].id, now, None, None)];
    forall j | 0 <= j < |ds|
      ensures (ds'[j].status == Available <==> Unused(segs', ds'[j].id))
      ensures (ds'[j].status == Busy <==> OpenDevice(segs') == Some(ds'[j].id))
    {
      if j != i {
        assert ds'[j] == ds[j] && ds[j].id != ds[i].id;
        assert Unused(segs', ds[j].id) <==> Unused(segs, ds[j].id) by {
          assert forall k :: 0 <= k < |segs| ==> segs'[k] == segs[k];
        }
      } else {
        assert segs'[|segs|].deviceId == ds[i].id;
      }
    }
  }

  /**
   * Opening a segment on an available device, when none is open, keeps the
   * store consistent: the device becomes busy and the segment is appended.
   */
  lemma {:induction false} OpenKeepsConsistent(ds: seq<Device>, sess: Session, i: nat, now: Timestamp)
    requires Consistent(ds, Some(sess))
    requires OpenDevice(sess.segments) == None
    requires i < |ds| && ds[i].status == Available
    ensures Consistent(ds[i := ds[i].(status := Busy)], Some(sess.(segments := sess.segments + [Segment(ds[i].id, now, None, None)])))
  {
    var segs := sess.segments;
    SeedIdsDistinct(ds);
    OpenKeepsServedOnce(ds, segs, i, now);
    OpenKeepsStatuses(ds, segs, i, now);
    var segs' := segs + [Segment(ds[i].id, now, None, None)];
    assert OnlyLastOpen(segs') by {
      assert segs == [] || segs[|segs| - 1].endedAt.Some?;
    }
    assert MbOnceClosed(segs');
  }

  /** The open segment, closed at `now`: every earlier segment stays as it is. */
  function CloseLast(segs: seq<Segment>, now: Timestamp, rate: nat): seq<Segment>
    requires segs != []
  {
    segs[..|segs| - 1] + [Closed(segs[|segs| - 1], now, rate)]
  }

  /** Closing the last segment keeps only the last segment possibly open, closed ones holding their MB. */
  lemma {:induction false} CloseKeepsSegments(segs: seq<Segment>, now: Timestamp, rate: nat)
    requires segs != [] && OnlyLastOpen(segs) && MbOnceClosed(segs)
    ensures var segs' := CloseLast(segs, now, rate);
      && |segs'| == |segs|
      && (forall k :: 0 <= k < |segs| ==> segs'[k].deviceId == segs[k].deviceId)
      && OnlyLastOpen(segs') && MbOnceClosed(segs') && OpenDevice(segs') == None
  {
  }

  /** Stopping the open segment's device while closing that segment leaves every status in step. */
  lemma {:induction false} CloseKeepsStatuses(ds: seq<Device>, segs: seq<Segment>, segs': seq<Segment>)
    requires UniqueIds(ds) && StatusesMatch(ds, segs) && Registered(ds, segs)
    requires OpenDevice(segs).Some? && OpenDevice(segs') == None
    requires |segs'| == |segs| && forall k :: 0 <= k < |segs| ==> segs'[k].deviceId == segs[k].deviceId
    ensures StatusesMatch(WithStatus(ds, OpenDevice(segs).value, Stopped), segs')
  {
    var id := OpenDevice(segs).value;
    var c := IndexOf(ds, segs[|segs| - 1].deviceId).value;
    var ds' := WithStatus(ds, id, Stopped);
    assert ds' == ds[c := ds[c].(status := Stopped)];
    forall j | 0 <= j < |ds|
      ensures (ds'[j].status == Available <==> Unused(segs', ds'[j].id))
      ensures (ds'[j].status == Busy <==> OpenDevice(segs') == Some(ds'[j].id))
    {
      assert Unused(segs', ds[j].id) <==> Unused(segs, ds[j].id);
      if j == c {
        assert segs[|segs| - 1].deviceId == ds[j].id;
      } else {
        assert ds'[j] == ds[j] && ds[j].id != id;
      }
    }
  }

  /**
   * Stopping the device of the open segment and closing that segment keeps
   * the store consistent and leaves no segment open.
   */
  lemma {:induction false} CloseKeepsConsistent(ds: seq<Device>, sess: Session, now: Timestamp)
    requires Consistent(ds, Some(sess))
    requires OpenDevice(sess.segments).Some?
    ensures var segs := sess.segments;
      var segs' := CloseLast(segs, now, RateOf(ds, segs[|segs| - 1].deviceId));
      && Consistent(WithStatus(ds, segs[|segs| - 1].deviceId, Stopped), Some(sess.(segments := segs')))
      && OpenDevice(segs') == None
  {
    var segs := sess.segments;
    var id := segs[|segs| - 1].deviceId;
    var segs' := CloseLast(segs, now, RateOf(ds, id));
    var ds' := WithStatus(ds, id, Stopped);
    SeedIdsDistinct(ds);
    WithStatusKeepsRegistry(ds, id, Stopped, id);
    CloseKeepsSegments(segs, now, RateOf(ds, id));
    SameDevices(ds, ds', segs, segs');
    CloseKeepsStatuses(ds, segs, segs');
  }

  /*
   * buildSessionSummary on values.
   */

  /** What one segment adds to its device: its time up to its end (or `now`), and its MB. */
  function SegmentCharge(ds: seq<Device>, seg: Segment, now: Timestamp): Charge
  {
    var end := if seg.endedAt.Some? then seg.endedAt.value else now;
    var ms := ElapsedMs(seg.startedAt, end);
    Charge(seg.deviceId, ms, if seg.mbUsed.Some? then seg.mbUsed.value else EstimateMb(ms, RateOf(ds, seg.deviceId)))
  }

  function Charges(ds: seq<Device>, segs: seq<Segment>, now: Timestamp): seq<Charge>
  {
    seq(|segs|, k requires 0 <= k < |segs| => SegmentCharge(ds, segs[k], now))
  }

  /** One segment's elapsed time and MB, as the summary loop works them out. */
  method SegmentFigures(ds: seq<Device>, seg: Segment, now: Timestamp) returns (durMs: nat, mb: int)
    ensures Charge(seg.deviceId, durMs, mb) == SegmentCharge(ds, seg, now)
  {
    var mbPerMinute := RateOf(ds, seg.deviceId);
    var end := if seg.endedAt.Some? then seg.endedAt.value else now;
    durMs := ElapsedMs(seg.startedAt, end);
    mb := if seg.mbUsed.Some? then seg.mbUsed.value else EstimateMb(durMs, mbPerMinute);
  }

  /** One empty accumulator per device, in device order. */
  function Zero(ds: seq<Device>): seq<DeviceTotal>
  {
    seq(|ds|, i requires 0 <= i < |ds| => DeviceTotal(ds[i].id, ds[i].name, 0, 0))
  }

  /** The devices' accumulators after the charges. */
  function Totals(ds: seq<Device>, cs: seq<Charge>): seq<DeviceTotal>
  {
    Accumulate(Zero(ds), cs)
  }

  /** The open segment's MB so far, at its device's rate; 0 without an open segment. */
  function LiveMb(ds: seq<Device>, s: Option<Session>, now: Timestamp): nat
  {
    match CurrentSegment(s)
    case None => 0
    case Some(cur) => EstimateMb(ElapsedMs(cur.startedAt, now), RateOf(ds, cur.deviceId))
  }

  function CurrentDeviceId(s: Option<Session>): Option<string>
  {
    match CurrentSegment(s)
    case None => None
    case Some(cur) => Some(cur.deviceId)
  }

  function SummaryOf(ds: seq<Device>, s: Option<Session>, now: Timestamp): SummaryView
  {
    SummaryView(ds, s, Report(Totals(ds, Charges(ds, Segments(s), now)), CurrentDeviceId(s), LiveMb(ds, s, now)))
  }

  /**
   * What the summary needs of the store: one accumulator per device id, and
   * one for every segment's device (`perDevice.get(...)!` fails otherwise).
   */
  ghost predicate Summarizable(ds: seq<Device>, segs: seq<Segment>)
  {
    && UniqueIds(ds)
    && Registered(ds, segs)
  }

  /** A consistent store can always be summarised. */
  lemma {:induction false} ConsistentIsSummarizable(ds: seq<Device>, s: Option<Session>)
    requires Consistent(ds, s)
    ensures Summarizable(ds, Segments(s))
  {
    SeedIdsDistinct(ds);
  }

  /** The accumulators of the first `n` devices before any charge: zero time and MB each. */
  lemma {:induction false} TotalsGrow(ds: seq<Device>, n: nat)
    requires n < |ds|
    ensures Zero(ds[..n + 1]) == Zero(ds[..n]) + [DeviceTotal(ds[n].id, ds[n].name, 0, 0)]
  {
  }

  /**
   * One more charge, to a registered device, changes only that device's
   * accumulator, the one `perDevice.get` finds, by the charge's time and MB.
   */
  lemma {:induction false} TotalsStep(ds: seq<Device>, cs: seq<Charge>, k: nat)
    requires UniqueIds(ds)
    requires k < |cs| && IndexOf(ds, cs[k].deviceId).Some?
    ensures var ts := Totals(ds, cs[..k]);
      var r := Lookup(ts, cs[k].deviceId);
      && r.Some?
      && Totals(ds, cs[..k + 1]) == ts[r.value := ts[r.value].(ms := ts[r.value].ms + cs[k].ms, mb := ts[r.value].mb + cs[k].mb)]
  {
    var ts := Totals(ds, cs[..k]);
    var i := IndexOf(ds, cs[k].deviceId).value;
    assert ts[i].deviceId == cs[k].deviceId;
    AccumulateStep(Zero(ds), cs, k);
  }

  /** The MB stored in the closed segments. */
  function StoredMb(segs: seq<Segment>): int
  {
    if segs == [] then 0
    else StoredMb(segs[..|segs| - 1]) + (if segs[|segs| - 1].mbUsed.Some? then segs[|segs| - 1].mbUsed.value else 0)
  }

  /** Closed segments are charged exactly the MB they stored. */
  lemma {:induction false} ClosedCharges(ds: seq<Device>, segs: seq<Segment>, now: Timestamp)
    requires forall k :: 0 <= k < |segs| ==> segs[k].mbUsed.Some?
    ensures AllMb(Charges(ds, segs, now)) == StoredMb(segs)
  {
    if segs != [] {
      var front := segs[..|segs| - 1];
      assert Charges(ds, segs, now)[..|segs| - 1] == Charges(ds, front, now);
      ClosedCharges(ds, front, now);
    }
  }

  /**
   * The summary's grand total counts the open segment twice: once in its
   * device's figure and once more as the live figure. Closed segments count
   * their stored MB once.
   */
  lemma {:induction false} SummaryCountsLiveTwice(ds: seq<Device>, s: Option<Session>, now: Timestamp)
    requires Summarizable(ds, Segments(s)) && OnlyLastOpen(Segments(s)) && MbOnceClosed(Segments(s))
    ensures SummaryOf(ds, s, now).summary.totalMb == StoredMb(Segments(s)) + 2 * LiveMb(ds, s, now)
    ensures SummaryOf(ds, s, now).summary.totalDurationMin == RoundedMinutes(SumMs(Totals(ds, Charges(ds, Segments(s), now))))
  {
    var segs := Segments(s);
    var cs := Charges(ds, segs, now);
    TotalsNonNegative(ds, segs, now);
    ReportFacts(Totals(ds, cs), CurrentDeviceId(s), LiveMb(ds, s, now));
    TotalsHoldAllMb(ds, cs);
    ChargesMb(ds, s, now);
  }

  /** With one accumulator per id and every charge's device registered, the accumulators together hold all the MB. */
  lemma {:induction false} TotalsHoldAllMb(ds: seq<Device>, cs: seq<Charge>)
    requires UniqueIds(ds)
    requires forall k :: 0 <= k < |cs| ==> IndexOf(ds, cs[k].deviceId).Some?
    ensures SumMb(Totals(ds, cs)) == AllMb(cs)
  {
    var zero := Zero(ds);
    AccumulatedMb(zero, cs);
    forall k | 0 <= k < |cs|
      ensures cs[k].deviceId in TotalIds(zero)
    {
      var i := IndexOf(ds, cs[k].deviceId).value;
      assert zero[i] in zero;
    }
    KnownMbOfAll(cs, TotalIds(zero));
  }

  /** The segments' charges hold the MB stored in the closed ones plus the live estimate of the open one. */
  lemma {:induction false} ChargesMb(ds: seq<Device>, s: Option<Session>, now: Timestamp)
    requires OnlyLastOpen(Segments(s)) && MbOnceClosed(Segments(s))
    ensures AllMb(Charges(ds, Segments(s), now)) == StoredMb(Segments(s)) + LiveMb(ds, s, now)
  {
    var segs := Segments(s);
    var cs := Charges(ds, segs, now);
    if segs != [] && segs[|segs| - 1].endedAt.None? {
      var front := segs[..|segs| - 1];
      assert cs[..|cs| - 1] == Charges(ds, front, now);
      ClosedCharges(ds, front, now);
      assert segs == front + [segs[|segs| - 1]];
    } else {
      ClosedCharges(ds, segs, now);
    }
  }

  /** Every accumulator's MB is non-negative, since stored and estimated MB are. */
  lemma {:induction false} TotalsNonNegative(ds: seq<Device>, segs: seq<Segment>, now: Timestamp)
    requires MbOnceClosed(segs)
    ensures forall i :: 0 <= i < |Totals(ds, Charges(ds, segs, now))| ==> Totals(ds, Charges(ds, segs, now))[i].mb >= 0
  {
    var cs := Charges(ds, segs, now);
    assert forall k :: 0 <= k < |cs| ==> cs[k].mb >= 0;
    forall i | 0 <= i < |ds|
      ensures ChargedMb(cs, ds[i].id) >= 0
    {
      ChargedMbNonNegative(cs, ds[i].id);
    }
  }

  /** The summary's current device is the busy device, if any, and its live figure is 0 without an open segment. */
  lemma {:induction false} SummaryCurrentIsBusy(ds: seq<Device>, s: Option<Session>, now: Timestamp)
    requires Consistent(ds, s)
    ensures var v := SummaryOf(ds, s, now).summary;
      && (forall i :: 0 <= i < |ds| ==> (v.currentDeviceId == Some(ds[i].id) <==> ds[i].status == Busy))
      && (CurrentSegment(s).None? ==> v.currentDeviceId == None && v.liveMbUsed == 0)
  {
    BusyIsOpenDevice(ds, s);
  }

  /** The seed devices are listed in ascending id order. */
  lemma {:induction false} SeedAscending(ds: seq<Device>)
    requires SeedRegistry(ds)
    ensures Ascending(DeviceIds(ds))
  {
    assert Below("dev-a", "dev-b") && Below("dev-b", "dev-c") && Below("dev-a", "dev-c");
  }

  /**
   * The summary's detail rows come in device order, one for each device the
   * session has used for some time or MB, and name only registered devices.
   */
  lemma {:induction false} SummaryRowsInDeviceOrder(ds: seq<Device>, s: Option<Session>, now: Timestamp)
    requires Ascending(DeviceIds(ds)) && MbOnceClosed(Segments(s))
    ensures var v := SummaryOf(ds, s, now).summary;
      && (forall i, j :: 0 <= i < j < |v.perDevice| ==> Below(v.perDevice[i].deviceId, v.perDevice[j].deviceId))
      && (forall u :: u in v.perDevice ==> exists i :: 0 <= i < |ds| && u.deviceId == ds[i].id && u.name == ds[i].name)
  {
    var totals := Totals(ds, Charges(ds, Segments(s), now));
    TotalsNonNegative(ds, Segments(s), now);
    assert TotalsAscending(totals) by {
      assert forall i :: 0 <= i < |ds| ==> DeviceIds(ds)[i] == totals[i].deviceId;
    }
    ReportFacts(totals, CurrentDeviceId(s), LiveMb(ds, s, now));
    var v := SummaryOf(ds, s, now).summary;
    forall u | u in v.perDevice
      ensures exists i :: 0 <= i < |ds| && u.deviceId == ds[i].id && u.name == ds[i].name
    {
      var t :| t in totals && (t.ms > 0 || t.mb > 0) && u == DeviceUsage(t.deviceId, t.name, RoundedMinutes(t.ms), t.mb);
      var i :| 0 <= i < |totals| && totals[i] == t;
    }
  }

  /** The store's devices and session after a step, and the device switched to, if any. */
  datatype Step = Step(devices: seq<Device>, session: Option<Session>, switchedTo: Option<string>)

  /** closeCurrentSegmentAndComputeMB on values: the open segment, if any, closed at `now`. */
  function CloseOpen(ds: seq<Device>, s: Option<Session>, now: Timestamp): Option<Session>
  {
    match CurrentSegment(s)
    case None => s
    case Some(cur) =>
      var segs := s.value.segments;
      Some(s.value.(segments := CloseLast(segs, now, RateOf(ds, cur.deviceId))))
  }

  /** The autoswitch: the first available device, if any, becomes busy and serves a new open segment. */
  function Autoswitch(ds: seq<Device>, sess: Session, now: Timestamp): Step
  {
    match PickAvailableDevice(ds)
    case None => Step(ds, Some(sess), None)
    case Some(j) =>
      Step(ds[j := ds[j].(status := Busy)],
           Some(sess.(segments := sess.segments + [Segment(ds[j].id, now, None, None)])),
           Some(ds[j].id))
  }

  /**
   * stopCurrentDeviceAndAutoswitch on values: nothing without an open
   * segment; otherwise its device is stopped, the segment closed (at the
   * rate `find` gives after the stop), and the autoswitch follows.
   */
  function AfterStop(ds: seq<Device>, s: Option<Session>, now: Timestamp): Step
  {
    match CurrentSegment(s)
    case None => Step(ds, s, None)
    case Some(cur) =>
      var stopped := WithStatus(ds, cur.deviceId, Stopped);
      var closed := CloseOpen(stopped, s, now);
      Autoswitch(stopped, closed.value, now)
  }

  /**
   * A stop with an open segment closes exactly that segment, at the rate of
   * its device, keeps every earlier segment and the session's own fields,
   * and appends one open segment exactly when it switches.
   */
  lemma {:induction false} StopClosesLast(ds: seq<Device>, s: Option<Session>, now: Timestamp)
    requires CurrentSegment(s).Some?
    ensures var segs := s.value.segments;
      var n := |segs|;
      var st := AfterStop(ds, s, now);
      && st.session.Some?
      && st.session.value == s.value.(segments := st.session.value.segments)
      && |st.session.value.segments| == n + (if st.switchedTo.Some? then 1 else 0)
      && st.session.value.segments[..n - 1] == segs[..n - 1]
      && st.session.value.segments[n - 1] == Closed(segs[n - 1], now, RateOf(ds, segs[n - 1].deviceId))
      && st.session.value.segments[n - 1].endedAt == Some(now)
      && (st.switchedTo.Some? ==> st.session.value.segments[n] == Segment(st.switchedTo.value, now, None, None))
  {
    var cur := CurrentSegment(s).value;
    WithStatusKeepsRate(ds, cur.deviceId, Stopped, cur.deviceId);
  }

  /** Stopping a device that was not available leaves the first available device where it was. */
  lemma {:induction false} PickIgnoresStop(ds: seq<Device>, c: nat)
    requires c < |ds| && ds[c].status != Available
    ensures PickAvailableDevice(ds[c := ds[c].(status := Stopped)]) == PickAvailableDevice(ds)
  {
    var ds' := ds[c := ds[c].(status := Stopped)];
    assert forall i :: 0 <= i < |ds| ==> (ds'[i].status == Available <==> ds[i].status == Available);
    var p, q := PickAvailableDevice(ds'), PickAvailableDevice(ds);
    if p.Some? && q.Some? {
      assert !(p.value < q.value) && !(q.value < p.value);
    }
  }

  /**
   * A stop switches to the first device that was available before it, and
   * to none when there was none: the device it stops was busy, so it is
   * never the one switched to. The stopped device and the one switched to
   * are the only devices whose status changes.
   */
  lemma {:induction false} StopSwitchesToFirstAvailable(ds: seq<Device>, s: Option<Session>, now: Timestamp)
    requires Consistent(ds, s) && CurrentSegment(s).Some?
    ensures var cur := CurrentSegment(s).value;
      var st := AfterStop(ds, s, now);
      && |st.devices| == |ds|
      && match PickAvailableDevice(ds)
         case None =>
           && st.switchedTo == None
           && forall i :: 0 <= i < |ds| ==> st.devices[i] == (if ds[i].id == cur.deviceId then ds[i].(status := Stopped) else ds[i])
         case Some(j) =>
           && st.switchedTo == Some(ds[j].id)
           && ds[j].id != cur.deviceId
           && forall i :: 0 <= i < |ds| ==>
                st.devices[i] == (if ds[i].id == cur.deviceId then ds[i].(status := Stopped)
                                  else if i == j then ds[i].(status := Busy)
                                  else ds[i])
  {
    var segs := s.value.segments;
    var cur := CurrentSegment(s).value;
    SeedIdsDistinct(ds);
    assert IndexOf(ds, segs[|segs| - 1].deviceId).Some?;
    var c := IndexOf(ds, cur.deviceId).value;
    assert ds[c].status == Busy;
    var stopped := WithStatus(ds, cur.deviceId, Stopped);
    assert stopped == ds[c := ds[c].(status := Stopped)];
    StopThenSwitch(ds, c, CloseOpen(stopped, s, now).value, now);
  }

  /** The autoswitch after device `c`, which was not available, is stopped: the devices it leaves, pointwise. */
  lemma {:induction false} StopThenSwitch(ds: seq<Device>, c: nat, sess: Session, now: Timestamp)
    requires UniqueIds(ds) && c < |ds| && ds[c].status != Available
    ensures var st := Autoswitch(ds[c := ds[c].(status := Stopped)], sess, now);
      && |st.devices| == |ds|
      && match PickAvailableDevice(ds)
         case None =>
           && st.switchedTo == None
           && forall i :: 0 <= i < |ds| ==> st.devices[i] == (if ds[i].id == ds[c].id then ds[i].(status := Stopped) else ds[i])
         case Some(j) =>
           && st.switchedTo == Some(ds[j].id)
           && ds[j].id != ds[c].id
           && forall i :: 0 <= i < |ds| ==>
                st.devices[i] == (if ds[i].id == ds[c].id then ds[i].(status := Stopped)
                                  else if i == j then ds[i].(status := Busy)
                                  else ds[i])
  {
    PickIgnoresStop(ds, c);
  }

  /** A stop keeps the store consistent, whether or not there was a segment to close or a device to switch to. */
  lemma {:induction false} StopKeepsConsistent(ds: seq<Device>, s: Option<Session>, now: Timestamp)
    requires Consistent(ds, s)
    ensures Consistent(AfterStop(ds, s, now).devices, AfterStop(ds, s, now).session)
  {
    match CurrentSegment(s)
    case None =>
    case Some(cur) =>
      var stopped := WithStatus(ds, cur.deviceId, Stopped);
      CloseKeepsConsistent(ds, s.value, now);
      WithStatusKeepsRate(ds, cur.deviceId, Stopped, cur.deviceId);
      var closed := CloseOpen(stopped, s, now);
      match PickAvailableDevice(stopped)
      case None =>
      case Some(j) =>
        OpenKeepsConsistent(stopped, closed.value, j, now);
  }

  /** A stopped device stays stopped through a stop: only a reset makes it available again. */
  lemma {:induction false} StoppedStaysStopped(ds: seq<Device>, s: Option<Session>, now: Timestamp, i: nat)
    requires Consistent(ds, s) && i < |ds| && ds[i].status == Stopped
    ensures i < |AfterStop(ds, s, now).devices| && AfterStop(ds, s, now).devices[i].status == Stopped
  {
    if CurrentSegment(s).Some? {
      StopSwitchesToFirstAvailable(ds, s, now);
    }
  }

  /** In a consistent store the busy devices are exactly the open segment's one: at most one. */
  lemma {:induction false} BusyIsOpenDevice(ds: seq<Device>, s: Option<Session>)
    requires Consistent(ds, s)
    ensures forall i :: 0 <= i < |ds| ==>
      (ds[i].status == Busy <==> CurrentSegment(s).Some? && CurrentSegment(s).value.deviceId == ds[i].id)
    ensures forall i, j :: 0 <= i < |ds| && 0 <= j < |ds| && ds[i].status == Busy && ds[j].status == Busy ==> i == j
  {
    SeedIdsDistinct(ds);
  }

  /** Without a session every device is available, so a start takes the first seed device. */
  lemma {:induction false} IdleStartPicksFirst(ds: seq<Device>)
    requires Consistent(ds, None)
    ensures forall i :: 0 <= i < |ds| ==> ds[i].status == Available
    ensures PickAvailableDevice(ds) == Some(0) && ds[0].id == "dev-a"
  {
  }

  /** No device serves the session twice, so it never has more segments than there are devices. */
  lemma {:induction false} SegmentsBounded(ds: seq<Device>, s: Option<Session>)
    requires Consistent(ds, s)
    ensures |Segments(s)| <= |ds|
  {
    var segs := Segments(s);
    var xs := SegmentDeviceIds(segs);
    forall x | x in xs
      ensures x in DeviceIds(ds)
    {
      var k :| 0 <= k < |xs| && xs[k] == x;
      var i := IndexOf(ds, segs[k].deviceId).value;
      assert DeviceIds(ds)[i] == x;
    }
    DistinctWithin(xs, DeviceIds(ds));
  }

  class Store {
    var devices: seq<Device>
    var session: Option<Session>

    ghost predicate Valid()
      reads this
    {
      Consistent(devices, session)
    }

    /** The store as first created: the seed devices, all available, and no session. */
    constructor ()
      ensures Valid() && devices == InitialDevices() && session == None
    {
      devices := InitialDevices();
      session := None;
    }

    /** markDeviceBusy: the device `find` locates by `id` becomes busy; nothing when there is none. */
    method MarkDeviceBusy(id: string)
      modifies this
      ensures devices == WithStatus(old(devices), id, Busy) && session == old(session)
    {
      var i := IndexOf(devices, id);
      if i.Some? {
        devices := devices[i.value := devices[i.value].(status := Busy)];
      }
    }

    /** markDeviceStopped: the device `find` locates by `id` becomes stopped; nothing when there is none. */
    method MarkDeviceStopped(id: string)
      modifies this
      ensures devices == WithStatus(old(devices), id, Stopped) && session == old(session)
    {
      var i := IndexOf(devices, id);
      if i.Some? {
        devices := devices[i.value := devices[i.value].(status := Stopped)];
      }
    }

    /** resetAll: a fresh copy of the seed devices and no session. */
    method ResetAll()
      modifies this
      ensures Valid() && devices == InitialDevices() && session == None
    {
      devices := InitialDevices();
      session := None;
    }

    /**
     * startSession: an active session is returned as it is; otherwise a new
     * session replaces the old one and takes the first available device.
     */
    method StartSession(now: Timestamp, newId: string) returns (s: Session)
      requires Valid()
      modifies this
      ensures Valid()
      ensures old(session).Some? && old(session).value.endedAt.None? ==>
        s == old(session).value && session == old(session) && devices == old(devices)
      ensures !(old(session).Some? && old(session).value.endedAt.None?) ==>
        && session == Some(s)
        && s.id == newId && s.startedAt == now && s.endedAt.None?
        && match PickAvailableDevice(old(devices))
           case None => s.segments == [] && devices == old(devices)
           case Some(i) =>
             && s.segments == [Segment(old(devices)[i].id, now, None, None)]
             && devices == old(devices)[i := old(devices)[i].(status := Busy)]
    {
      if session.Some? && session.value.endedAt.None? {
        return session.value;
      }
      var device := PickAvailableDevice(devices);
      s := Session(newId, now, None, []);
      session := Some(s);
      if device.Some? {
        var id := devices[device.value].id;
        SeedIdsDistinct(devices);
        IndexOfOwnId(devices, device.value);
        OpenKeepsConsistent(devices, s, device.value, now);
        MarkDeviceBusy(id);
        s := s.(segments := s.segments + [Segment(id, now, None, None)]);
        session := Some(s);
      }
    }

    /**
     * closeCurrentSegmentAndComputeMB: the open segment, if any, ends at `now`
     * with its MB frozen at the estimate for its duration and its device's rate.
     */
    method CloseCurrentSegmentAndComputeMB(now: Timestamp)
      modifies this
      ensures devices == old(devices)
      ensures session == CloseOpen(old(devices), old(session), now)
    {
      var current := CurrentSegment(session);
      if current.None? {
        return;
      }
      var cur := current.value;
      var rate := RateOf(devices, cur.deviceId);
      var segs := session.value.segments;
      var closed := cur.(endedAt := Some(now), mbUsed := Some(EstimateMb(ElapsedMs(cur.startedAt, now), rate)));
      session := Some(session.value.(segments := segs[..|segs| - 1] + [closed]));
    }

    /**
     * stopCurrentDeviceAndAutoswitch: the device holding the open segment is
     * stopped, the segment is closed, and the next available device, if any,
     * takes over in a new open segment.
     */
    method StopCurrentDeviceAndAutoswitch(now: Timestamp) returns (r: StopResult)
      requires Valid()
      modifies this
      ensures Valid()
      ensures AfterStop(old(devices), old(session), now) == Step(devices, session, r.switchedTo)
      ensures r.session == session
      ensures CurrentSegment(old(session)).None? ==>
        r == StopResult(old(session), None) && devices == old(devices) && session == old(session)
    {
      if session.None? {
        return StopResult(None, None);
      }
      var current := CurrentSegment(session);
      if current.None? {
        return StopResult(session, None);
      }
      CloseKeepsConsistent(devices, session.value, now);
      WithStatusKeepsRegistry(devices, current.value.deviceId, Stopped, current.value.deviceId);
      MarkDeviceStopped(current.value.deviceId);
      CloseCurrentSegmentAndComputeMB(now);
      var switchedTo := SwitchToNextAvailable(now);
      return StopResult(session, switchedTo);
    }

    /**
     * The autoswitch step of stopCurrentDeviceAndAutoswitch, once no segment
     * is open: the first available device, if any, becomes busy and a new
     * open segment on it is appended.
     */
    method SwitchToNextAvailable(now: Timestamp) returns (switchedTo: Option<string>)
      requires Consistent(devices, session) && session.Some? && OpenDevice(session.value.segments) == None
      modifies this
      ensures Valid()
      ensures Autoswitch(old(devices), old(session).value, now) == Step(devices, session, switchedTo)
    {
      var next := PickAvailableDevice(devices);
      if next.Some? {
        var id := devices[next.value].id;
        SeedIdsDistinct(devices);
        IndexOfOwnId(devices, next.value);
        OpenKeepsConsistent(devices, session.value, next.value, now);
        MarkDeviceBusy(id);
        session := Some(session.value.(segments := session.value.segments + [Segment(id, now, None, None)]));
        return Some(id);
      }
      return None;
    }

    /**
     * buildSessionSummary: per-device totals folded over the segments, the
     * live figure of the open segment, and the summary block built from them.
     */
    method BuildSessionSummary(now: Timestamp) returns (v: SummaryView)
      requires Summarizable(devices, Segments(session))
      ensures v == SummaryOf(devices, session, now)
    {
      var perDevice := ZeroTotals();
      perDevice := AddSegments(perDevice, now);
      var liveMbUsed := 0;
      var current := CurrentSegment(session);
      if session.Some? && current.Some? {
        var mbPerMinute := RateOf(devices, current.value.deviceId);
        liveMbUsed := EstimateMb(ElapsedMs(current.value.startedAt, now), mbPerMinute);
      }
      v := SummaryView(devices, session, Report(perDevice, CurrentDeviceId(session), liveMbUsed));
    }

    /** The first loop of buildSessionSummary: one zero accumulator per device, in device order. */
    method ZeroTotals() returns (perDevice: seq<DeviceTotal>)
      ensures perDevice == Zero(devices)
    {
      perDevice := [];
      for i := 0 to |devices|
        invariant perDevice == Zero(devices[..i])
      {
        TotalsGrow(devices, i);
        perDevice := perDevice + [DeviceTotal(devices[i].id, devices[i].name, 0, 0)];
      }
      assert devices[..|devices|] == devices;
    }

    /**
     * The second loop of buildSessionSummary: each segment's time, up to its
     * end or `now`, and its MB, stored or estimated at its device's rate,
     * added to the accumulator `perDevice.get` finds for its device.
     */
    method AddSegments(zero: seq<DeviceTotal>, now: Timestamp) returns (perDevice: seq<DeviceTotal>)
      requires Summarizable(devices, Segments(session)) && zero == Zero(devices)
      ensures perDevice == Totals(devices, Charges(devices, Segments(session), now))
    {
      perDevice := zero;
      var segs := Segments(session);
      ghost var cs := Charges(devices, segs, now);
      assert cs[..0] == [];
      for k := 0 to |segs|
        invariant perDevice == Totals(devices, cs[..k])
      {
        var seg := segs[k];
        var durMs, mb := SegmentFigures(devices, seg, now);
        assert cs[k] == Charge(seg.deviceId, durMs, mb);
        TotalsStep(devices, cs, k);
        var r := Lookup(perDevice, seg.deviceId).value;
        perDevice := perDevice[r := perDevice[r].(ms := perDevice[r].ms + durMs, mb := perDevice[r].mb + mb)];
      }
      assert cs[..|segs|] == cs;
    }
  }
}
