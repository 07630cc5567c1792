/**
 * What both session stores share: clock readings, the elapsed-time and
 * data-usage estimate of a segment, the per-device fold over segments and
 * the summary block built from its result.
 *
 * Numbers the source keeps as JavaScript doubles are integers here:
 * elapsed time in milliseconds, and every figure the source rounds with
 * `+(x).toFixed(2)` in hundredths (of a minute or of an MB).
 */
module Usage {
  import opened Ids

  datatype Option<+T> = None | Some(value: T)

  /** A clock reading in milliseconds since the Unix epoch; the clock never reads 0. */
  type Timestamp = t: int | t > 0 witness 1

  datatype DeviceStatus = Available | Busy | Stopped

  const MsPerMinute: nat := 60000

  /** The rate assumed when a segment's device (or its rate) cannot be found. */
  const FallbackMbPerMinute: nat := 2

  /** `max(0, end - start)`: elapsed milliseconds, clock skew clamped to zero. */
  function ElapsedMs(start: int, end: int): nat
  {
    if end > start then end - start else 0
  }

  /**
   * `n / d` rounded to hundredths, halves away from zero, in units of 0.01:
   * the value `+(n / d).toFixed(2)` denotes for a non-negative quotient.
   */
  function Hundredths(n: nat, d: nat): nat
    requires d > 0
  {
    (200 * n + d) / (2 * d)
  }

  /** `Hundredths(n, d)` hundredths lie within half a hundredth of `n / d`. */
  lemma {:induction false} HundredthsRounds(n: nat, d: nat)
    requires d > 0
    ensures var h := Hundredths(n, d); -(d as int) < 2 * (h * d - 100 * n) <= d
  {
    var q := (200 * n + d) / (2 * d);
    assert 200 * n + d == 2 * d * q + (200 * n + d) % (2 * d);
  }

  /** MB used, in hundredths, by `ms` milliseconds at `rate` MB per minute. */
  function EstimateMb(ms: nat, rate: nat): nat
  {
    Hundredths(ms * rate, MsPerMinute)
  }

  /** `ms` as minutes, in hundredths, rounded like every other displayed figure. */
  function RoundedMinutes(ms: nat): nat
  {
    Hundredths(ms, MsPerMinute)
  }

  /*
   * The per-device fold. Each segment the summary walks contributes one
   * charge: its device, its elapsed time and its MB.
   */

  datatype Charge = Charge(deviceId: string, ms: nat, mb: int)

  /** Milliseconds charged to device `id`, accumulated charge by charge. */
  function ChargedMs(cs: seq<Charge>, id: string): nat
  {
    if cs == [] then 0
    else ChargedMs(cs[..|cs| - 1], id) + (if cs[|cs| - 1].deviceId == id then cs[|cs| - 1].ms else 0)
  }

  /** MB (hundredths) charged to device `id`. */
  function ChargedMb(cs: seq<Charge>, id: string): int
  {
    if cs == [] then 0
    else ChargedMb(cs[..|cs| - 1], id) + (if cs[|cs| - 1].deviceId == id then cs[|cs| - 1].mb else 0)
  }

  /** MB (hundredths) of the charges whose device is in `known`. */
  function KnownMb(cs: seq<Charge>, known: set<string>): int
  {
    if cs == [] then 0
    else KnownMb(cs[..|cs| - 1], known) + (if cs[|cs| - 1].deviceId in known then cs[|cs| - 1].mb else 0)
  }

  lemma {:induction false} KnownMbSplit(cs: seq<Charge>, id: string, rest: set<string>)
    requires id !in rest
    ensures KnownMb(cs, {id} + rest) == ChargedMb(cs, id) + KnownMb(cs, rest)
    ensures KnownMb(cs, {}) == 0
  {
    if cs != [] {
      KnownMbSplit(cs[..|cs| - 1], id, rest);
    }
  }

  /** One device's accumulator: the running totals the summary keeps per device id. */
  datatype DeviceTotal = DeviceTotal(deviceId: string, name: string, ms: nat, mb: int)

  function TotalIds(ts: seq<DeviceTotal>): set<string>
  {
    set t | t in ts :: t.deviceId
  }

  predicate DistinctIds(ts: seq<DeviceTotal>)
  {
    forall i, j :: 0 <= i < j < |ts| ==> ts[i].deviceId != ts[j].deviceId
  }

  predicate TotalsAscending(ts: seq<DeviceTotal>)
  {
    forall i, j :: 0 <= i < j < |ts| ==> Below(ts[i].deviceId, ts[j].deviceId)
  }

  /** Position of the accumulator for `id`, as `perDevice.get(id)` finds it. */
  function Lookup(ts: seq<DeviceTotal>, id: string): (r: Option<nat>)
    ensures r.Some? ==> r.value < |ts| && ts[r.value].deviceId == id
    ensures r.None? ==> forall j :: 0 <= j < |ts| ==> ts[j].deviceId != id
  {
    if ts == [] then None
    else if ts[0].deviceId == id then Some(0)
    else match Lookup(ts[1..], id)
      case None => None
      case Some(k) => Some(k + 1)
  }

  /** Charges that never take MB away leave every device a non-negative MB figure. */
  lemma {:induction false} ChargedMbNonNegative(cs: seq<Charge>, id: string)
    requires forall k :: 0 <= k < |cs| ==> cs[k].mb >= 0
    ensures ChargedMb(cs, id) >= 0
  {
    if cs != [] {
      ChargedMbNonNegative(cs[..|cs| - 1], id);
    }
  }

  /** Taking one more charge adds it to its own device and to no other. */
  lemma {:induction false} ChargedStep(cs: seq<Charge>, k: nat)
    requires k < |cs|
    ensures forall id :: ChargedMs(cs[..k + 1], id) == ChargedMs(cs[..k], id) + (if cs[k].deviceId == id then cs[k].ms else 0)
    ensures forall id :: ChargedMb(cs[..k + 1], id) == ChargedMb(cs[..k], id) + (if cs[k].deviceId == id then cs[k].mb else 0)
  {
    assert cs[..k + 1][..k] == cs[..k];
  }

  /** The accumulators after the charges: each gains what is charged to its own id. */
  function Accumulate(zero: seq<DeviceTotal>, cs: seq<Charge>): seq<DeviceTotal>
  {
    seq(|zero|, i requires 0 <= i < |zero| =>
      zero[i].(ms := zero[i].ms + ChargedMs(cs, zero[i].deviceId), mb := zero[i].mb + ChargedMb(cs, zero[i].deviceId)))
  }

  /**
   * One more charge changes only the accumulator `perDevice.get` finds for
   * its device, by the charge's time and MB, and none when there is none.
   */
  lemma {:induction false} AccumulateStep(zero: seq<DeviceTotal>, cs: seq<Charge>, k: nat)
    requires DistinctIds(zero) && k < |cs|
    ensures var ts := Accumulate(zero, cs[..k]);
      match Lookup(ts, cs[k].deviceId)
      case None => Accumulate(zero, cs[..k + 1]) == ts
      case Some(r) => Accumulate(zero, cs[..k + 1]) == ts[r := ts[r].(ms := ts[r].ms + cs[k].ms, mb := ts[r].mb + cs[k].mb)]
  {
    ChargedStep(cs, k);
  }

  /**
   * Starting from zero, with no id repeated, the accumulators together hold
   * the MB of every charge to a listed id; charges to other ids are lost.
   */
  lemma {:induction false} AccumulatedMb(zero: seq<DeviceTotal>, cs: seq<Charge>)
    requires DistinctIds(zero) && forall i :: 0 <= i < |zero| ==> zero[i].mb == 0
    ensures SumMb(Accumulate(zero, cs)) == KnownMb(cs, TotalIds(zero))
  {
    var ts := Accumulate(zero, cs);
    assert TotalIds(ts) == TotalIds(zero) by {
      forall x | x in TotalIds(zero)
        ensures x in TotalIds(ts)
      {
        var i :| 0 <= i < |zero| && zero[i].deviceId == x;
        assert ts[i] in ts;
      }
      forall x | x in TotalIds(ts)
        ensures x in TotalIds(zero)
      {
        var i :| 0 <= i < |ts| && ts[i].deviceId == x;
        assert zero[i] in zero;
      }
    }
    SumMbOfTotals(ts, cs);
  }

  /** Sum of the accumulators' milliseconds (`reduce` over `durationMin`). */
  function SumMs(ts: seq<DeviceTotal>): nat
  {
    if ts == [] then 0 else ts[0].ms + SumMs(ts[1..])
  }

  /** Sum of the accumulators' MB (`reduce` over `mbUsed`). */
  function SumMb(ts: seq<DeviceTotal>): int
  {
    if ts == [] then 0 else ts[0].mb + SumMb(ts[1..])
  }

  /**
   * The devices the summary details: those with a positive duration or a
   * positive MB figure, in the order given.
   */
  function Touched(ts: seq<DeviceTotal>): (r: seq<DeviceTotal>)
    ensures forall t :: t in r <==> t in ts && (t.ms > 0 || t.mb > 0)
    ensures TotalsAscending(ts) ==> TotalsAscending(r)
  {
    if ts == [] then []
    else if ts[0].ms > 0 || ts[0].mb > 0 then [ts[0]] + Touched(ts[1..])
    else Touched(ts[1..])
  }

  /** Dropping the untouched devices loses no time, and no MB when no figure is negative. */
  lemma {:induction false} TouchedSums(ts: seq<DeviceTotal>)
    ensures SumMs(Touched(ts)) == SumMs(ts)
    ensures (forall i :: 0 <= i < |ts| ==> ts[i].mb >= 0) ==> SumMb(Touched(ts)) == SumMb(ts)
  {
    if ts != [] {
      TouchedSums(ts[1..]);
      if ts[0].ms > 0 || ts[0].mb > 0 {
        assert ([ts[0]] + Touched(ts[1..]))[1..] == Touched(ts[1..]);
      }
    }
  }

  /**
   * When every device's accumulator holds exactly the MB charged to it, and
   * no id repeats, the accumulators together hold the MB of every charge
   * whose device is listed; charges to other devices are lost.
   */
  lemma {:induction false} SumMbOfTotals(ts: seq<DeviceTotal>, cs: seq<Charge>)
    requires DistinctIds(ts)
    requires forall j :: 0 <= j < |ts| ==> ts[j].mb == ChargedMb(cs, ts[j].deviceId)
    ensures SumMb(ts) == KnownMb(cs, TotalIds(ts))
  {
    if ts == [] {
      assert TotalIds(ts) == {};
      KnownMbSplit(cs, "", {});
    } else {
      var rest := ts[1..];
      SumMbOfTotals(rest, cs);
      assert TotalIds(ts) == {ts[0].deviceId} + TotalIds(rest) by {
        assert ts == [ts[0]] + rest;
      }
      forall t | t in rest
        ensures t.deviceId != ts[0].deviceId
      {
        var k :| 0 <= k < |rest| && rest[k] == t;
        assert ts[k + 1] == t;
      }
      KnownMbSplit(cs, ts[0].deviceId, TotalIds(rest));
    }
  }

  /** All MB of the charges, whatever their device. */
  function AllMb(cs: seq<Charge>): int
  {
    if cs == [] then 0 else AllMb(cs[..|cs| - 1]) + cs[|cs| - 1].mb
  }

  lemma {:induction false} KnownMbOfAll(cs: seq<Charge>, known: set<string>)
    requires forall k :: 0 <= k < |cs| ==> cs[k].deviceId in known
    ensures KnownMb(cs, known) == AllMb(cs)
  {
    if cs != [] {
      KnownMbOfAll(cs[..|cs| - 1], known);
    }
  }

  /*
   * The summary block. Durations and MB figures are in hundredths.
   */

  datatype DeviceUsage = DeviceUsage(deviceId: string, name: string, durationMin: nat, mbUsed: int)

  datatype Summary = Summary(
    currentDeviceId: Option<string>,
    totalDurationMin: nat,
    totalMb: int,
    perDevice: seq<DeviceUsage>,
    liveMbUsed: nat)

  /** Each accumulator as displayed: its duration rounded to hundredths of a minute. */
  function Rows(ts: seq<DeviceTotal>): (r: seq<DeviceUsage>)
    ensures |r| == |ts|
    ensures forall i :: 0 <= i < |ts| ==> r[i] == DeviceUsage(ts[i].deviceId, ts[i].name, RoundedMinutes(ts[i].ms), ts[i].mb)
  {
    seq(|ts|, i requires 0 <= i < |ts| => DeviceUsage(ts[i].deviceId, ts[i].name, RoundedMinutes(ts[i].ms), ts[i].mb))
  }

  /**
   * The summary block built from the per-device accumulators, the current
   * device and the live MB figure. The live figure is added to the grand
   * total although the open segment's MB is already in its device's
   * accumulator.
   */
  function Report(totals: seq<DeviceTotal>, current: Option<string>, live: nat): Summary
  {
    var touched := Touched(totals);
    Summary(current, RoundedMinutes(SumMs(touched)), SumMb(touched) + live, Rows(touched), live)
  }

  /** What the summary block promises of its totals and its detail rows. */
  lemma {:induction false} ReportFacts(totals: seq<DeviceTotal>, current: Option<string>, live: nat)
    requires forall i :: 0 <= i < |totals| ==> totals[i].mb >= 0
    ensures var s := Report(totals, current, live);
      && s.currentDeviceId == current
      && s.liveMbUsed == live
      && s.totalDurationMin == RoundedMinutes(SumMs(totals))
      && s.totalMb == SumMb(totals) + live
      && (forall u :: u in s.perDevice ==>
            exists t :: t in totals && (t.ms > 0 || t.mb > 0) && u == DeviceUsage(t.deviceId, t.name, RoundedMinutes(t.ms), t.mb))
      && (forall t :: t in totals && (t.ms > 0 || t.mb > 0) ==>
            DeviceUsage(t.deviceId, t.name, RoundedMinutes(t.ms), t.mb) in s.perDevice)
      && (TotalsAscending(totals) ==>
            forall i, j :: 0 <= i < j < |s.perDevice| ==> Below(s.perDevice[i].deviceId, s.perDevice[j].deviceId))
  {
    var touched := Touched(totals);
    var s := Report(totals, current, live);
    TouchedSums(totals);
    forall u | u in s.perDevice
      ensures exists t :: t in totals && (t.ms > 0 || t.mb > 0) && u == DeviceUsage(t.deviceId, t.name, RoundedMinutes(t.ms), t.mb)
    {
      var i :| 0 <= i < |s.perDevice| && s.perDevice[i] == u;
      assert touched[i] in touched;
    }
    forall t | t in totals && (t.ms > 0 || t.mb > 0)
      ensures DeviceUsage(t.deviceId, t.name, RoundedMinutes(t.ms), t.mb) in s.perDevice
    {
      var i :| 0 <= i < |touched| && touched[i] == t;
      assert s.perDevice[i] == DeviceUsage(t.deviceId, t.name, RoundedMinutes(t.ms), t.mb);
    }
  }
}
