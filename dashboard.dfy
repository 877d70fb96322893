/**
 * The monitoring dashboard's client logic (the React component in App.js).
 *
 * Every `fetch` and timer is replaced by its outcome: a poll's reply is a
 * `Fetch` value, and the loops that issue one request after another read their
 * replies from an oracle indexed by attempt number. The component's `useState`
 * cells are the fields of `App`, and each callback or effect body is a
 * method that updates them.
 */
module Dashboard {
  import opened Wrappers

  const ModeStream: string := "stream"
  const ModeMotion: string := "motion"
  const ModeUnknown: string := "unknown"

  /** Chart history capacity (MAX_POINTS). */
  const MaxPoints: nat := 20
  /** Stream probes before giving up (RETRY.maxAttempts). */
  const MaxAttempts: nat := 20
  /** Mode polls after a successful set-mode request. */
  const SettlePolls: nat := 10

  const SensorOffline: string := "Sensor offline"
  const ToggleFailed: string := "Failed to toggle mode"
  const StreamUnavailable: string := "Stream unavailable after retries."
  const CaptureFailed: string := "Failed to capture image"

  /**
   * What one `fetch` resolved to: a response with its `ok` flag and its body as
   * decoded by `res.json()` (None when that rejects), or a transport error.
   */
  datatype Fetch<T> = Responded(ok: bool, body: Option<T>) | NetworkError

  /** A sensor snapshot from the sensor endpoint. */
  datatype Reading = Reading(temperature: real, humidity: real, pressure: real)

  /** One point of the chart history; pressure in kilopascals. */
  datatype ChartPoint = ChartPoint(time: string, temperature: real, humidity: real, pressureKPa: real)

  /** The `mode` field of a GET /mode body: None when the body is null or the field is absent. */
  type ModeDoc = Option<string>

  /** The still-image locator `${imageEndpoint}?t=${token}`. */
  datatype ImageRef = ImageRef(endpoint: string, token: nat)

  /** A reply the polling effects treat as success: `res.ok` held and the body decoded. */
  predicate Delivered<T>(f: Fetch<T>)
  {
    f.Responded? && f.ok && f.body.Some?
  }

  /** JavaScript truthiness of `data?.mode` for a string field. */
  predicate HasMode(doc: ModeDoc)
  {
    doc.Some? && doc.value != ""
  }

  function ChartPointOf(r: Reading, time: string): ChartPoint
  {
    ChartPoint(time, r.temperature, r.humidity, r.pressure / 1000.0)
  }

  // ---------------------------------------------------------------------------
  // Toggle target

  /** The mode a toggle asks for: stream exactly when the displayed mode is motion. */
  function ToggleTarget(current: string): (target: string)
    ensures target == ModeStream <==> current == ModeMotion
    ensures target == ModeStream || target == ModeMotion
  {
    if current == ModeMotion then ModeStream else ModeMotion
  }

  // ---------------------------------------------------------------------------
  // Bounded sensor history

  /** The last `n` elements of `s` (all of `s` when it is shorter), like `slice(-n)`. */
  function Last<T>(s: seq<T>, n: nat): seq<T>
  {
    if |s| <= n then s else s[|s| - n..]
  }

  /** `[...prev, entry].slice(-MAX_POINTS)`: the newest point goes last, the oldest falls off past capacity. */
  function AppendBounded(history: seq<ChartPoint>, point: ChartPoint): (r: seq<ChartPoint>)
    ensures |r| == if |history| < MaxPoints then |history| + 1 else MaxPoints
    ensures r[|r| - 1] == point
    ensures r[..|r| - 1] == history[|history| + 1 - |r|..]
  {
    var r := Last(history + [point], MaxPoints);
    assert r[..|r| - 1] == history[|history| + 1 - |r|..];
    r
  }

  /** The history after appending `points` one at a time, oldest first. */
  function HistoryAfter(history: seq<ChartPoint>, points: seq<ChartPoint>): seq<ChartPoint>
  {
    if points == [] then history
    else AppendBounded(HistoryAfter(history, points[..|points| - 1]), points[|points| - 1])
  }

  lemma LastOfLast<T>(s: seq<T>, t: seq<T>, n: nat)
    ensures Last(Last(s, n) + t, n) == Last(s + t, n)
  {
    if |s| > n {
      var u := s[|s| - n..];
      assert s + t == s[..|s| - n] + (u + t);
    }
  }

  lemma SplitLast<T>(s: seq<T>, t: seq<T>)
    requires t != []
    ensures s + t[..|t| - 1] + [t[|t| - 1]] == s + t
  {
    assert t == t[..|t| - 1] + [t[|t| - 1]];
  }

  /**
   * Any number of successful polls leave exactly the most recent MaxPoints points
   * of old history followed by the new ones, in arrival order, newest last.
   */
  lemma {:induction false} HistoryKeepsLastPoints(history: seq<ChartPoint>, points: seq<ChartPoint>)
    requires |history| <= MaxPoints
    ensures HistoryAfter(history, points) == Last(history + points, MaxPoints)
    ensures |HistoryAfter(history, points)| <= MaxPoints
  {
    if points != [] {
      var init, p := points[..|points| - 1], points[|points| - 1];
      HistoryKeepsLastPoints(history, init);
      calc {
        HistoryAfter(history, points);
        AppendBounded(HistoryAfter(history, init), p);
        AppendBounded(Last(history + init, MaxPoints), p);
        Last(Last(history + init, MaxPoints) + [p], MaxPoints);
        { LastOfLast(history + init, [p], MaxPoints); }
        Last(history + init + [p], MaxPoints);
        { SplitLast(history, points); }
        Last(history + points, MaxPoints);
      }
    }
  }

  lemma LastIsSuffix<T>(h: seq<T>, s: seq<T>, n: nat)
    requires h == Last(s, n)
    ensures |h| == if |s| < n then |s| else n
    ensures h == s[|s| - |h|..]
  {
  }

  /** Starting from an empty chart, n successful polls leave the min(n, 20) newest points in order. */
  lemma HistoryFromEmpty(points: seq<ChartPoint>)
    ensures var h := HistoryAfter([], points);
      && |h| == (if |points| < MaxPoints then |points| else MaxPoints)
      && h == points[|points| - |h|..]
  {
    var h := HistoryAfter([], points);
    assert h == Last(points, MaxPoints) by {
      HistoryKeepsLastPoints([], points);
      assert [] + points == points;
    }
    LastIsSuffix(h, points, MaxPoints);
  }

  /** One tick of the sensor poll: the reply and the wall-clock label it is stamped with. */
  datatype SensorTick = SensorTick(reply: Fetch<Reading>, time: string)

  /** The chart points that a run of sensor ticks contributes, in order. */
  function SuccessPoints(ticks: seq<SensorTick>): seq<ChartPoint>
  {
    if ticks == [] then []
    else
      var t := ticks[|ticks| - 1];
      SuccessPoints(ticks[..|ticks| - 1]) + (if Delivered(t.reply) then [ChartPointOf(t.reply.body.value, t.time)] else [])
  }

  /** The position of the last tick whose poll delivered a reading, if any. */
  function LastDelivered(ticks: seq<SensorTick>): (k: Option<nat>)
    ensures k.Some? ==>
      && k.value < |ticks| && Delivered(ticks[k.value].reply)
      && forall j :: k.value < j < |ticks| ==> !Delivered(ticks[j].reply)
    ensures k.None? ==> forall j :: 0 <= j < |ticks| ==> !Delivered(ticks[j].reply)
  {
    if ticks == [] then None
    else if Delivered(ticks[|ticks| - 1].reply) then Some(|ticks| - 1)
    else LastDelivered(ticks[..|ticks| - 1])
  }

  lemma LastDeliveredStep(ticks: seq<SensorTick>, i: nat)
    requires i < |ticks|
    ensures LastDelivered(ticks[..i + 1]) == if Delivered(ticks[i].reply) then Some(i) else LastDelivered(ticks[..i])
  {
    assert ticks[..i + 1][..i] == ticks[..i];
  }

  /** Some poll of the run failed, so "Sensor offline" was shown. */
  predicate SomePollFailed(ticks: seq<SensorTick>)
  {
    exists j :: 0 <= j < |ticks| && !Delivered(ticks[j].reply)
  }

  lemma SomePollFailedStep(ticks: seq<SensorTick>, i: nat)
    requires i < |ticks|
    ensures SomePollFailed(ticks[..i + 1]) == (SomePollFailed(ticks[..i]) || !Delivered(ticks[i].reply))
  {
    var next := ticks[..i + 1];
    assert next[i] == ticks[i];
    assert forall j :: 0 <= j < i ==> next[j] == ticks[..i][j];
  }

  lemma SuccessPointsStep(ticks: seq<SensorTick>, i: nat)
    requires i < |ticks|
    ensures SuccessPoints(ticks[..i + 1]) == SuccessPoints(ticks[..i]) + SuccessPoints([ticks[i]])
  {
    assert ticks[..i + 1][..i] == ticks[..i];
    assert [ticks[i]][..0] == [];
  }

  /** One more tick extends the history the way `FetchSensorResolved` does. */
  lemma HistoryAfterStep(history: seq<ChartPoint>, points: seq<ChartPoint>, t: SensorTick)
    ensures HistoryAfter(history, points + SuccessPoints([t])) ==
      if Delivered(t.reply) then AppendBounded(HistoryAfter(history, points), ChartPointOf(t.reply.body.value, t.time))
      else HistoryAfter(history, points)
  {
    assert [t][..0] == [];
    if Delivered(t.reply) {
      var pts := points + [ChartPointOf(t.reply.body.value, t.time)];
      assert pts[..|pts| - 1] == points;
    } else {
      assert points + [] == points;
    }
  }

  // ---------------------------------------------------------------------------
  // Settlement polls of a mode toggle

  /** A settlement poll throws (aborting the toggle) on a transport error or an undecodable body. */
  predicate Throws(f: Fetch<ModeDoc>)
  {
    f.NetworkError? || f.body.None?
  }

  /** A settlement poll settles when it decodes to a defined mode other than "unknown"; `res.ok` is not consulted. */
  predicate SettlesOn(f: Fetch<ModeDoc>)
  {
    !Throws(f) && HasMode(f.body.value) && f.body.value.value != ModeUnknown
  }

  datatype Settlement = Settled(mode: string) | Unsettled | PollThrew

  /** Outcome and number of polls made, from poll `i` on. */
  function SettleFrom(replies: nat -> Fetch<ModeDoc>, i: nat): (Settlement, nat)
    requires i < SettlePolls
    decreases SettlePolls - i
  {
    var reply := replies(i);
    if Throws(reply) then (PollThrew, i + 1)
    else if SettlesOn(reply) then (Settled(reply.body.value.value), i + 1)
    else if i + 1 == SettlePolls then (Unsettled, SettlePolls)
    else SettleFrom(replies, i + 1)
  }

  function Settle(replies: nat -> Fetch<ModeDoc>): (Settlement, nat)
  {
    SettleFrom(replies, 0)
  }

  /**
   * The settlement loop stops at the first poll that throws or settles, and otherwise
   * after SettlePolls polls, without a settled mode.
   */
  lemma {:induction false} SettleIsFirstDecisivePoll(replies: nat -> Fetch<ModeDoc>, i: nat)
    requires i < SettlePolls
    ensures var (s, n) := SettleFrom(replies, i);
      && i < n <= SettlePolls
      && (forall j :: i <= j < n - 1 ==> !Throws(replies(j)) && !SettlesOn(replies(j)))
      && (s.PollThrew? <==> Throws(replies(n - 1)))
      && (s.Settled? <==> SettlesOn(replies(n - 1)))
      && (s.Settled? ==> s.mode == replies(n - 1).body.value.value)
      && (s.Unsettled? ==> n == SettlePolls)
    decreases SettlePolls - i
  {
    var reply := replies(i);
    if !Throws(reply) && !SettlesOn(reply) && i + 1 < SettlePolls {
      SettleIsFirstDecisivePoll(replies, i + 1);
    }
  }

  /** k undecided polls followed by one that settles: the toggle settles there, after k + 1 polls. */
  lemma SettlesAfterUndecidedPolls(replies: nat -> Fetch<ModeDoc>, k: nat)
    requires k < SettlePolls
    requires forall j :: 0 <= j < k ==> !Throws(replies(j)) && !SettlesOn(replies(j))
    requires SettlesOn(replies(k))
    ensures Settle(replies) == (Settled(replies(k).body.value.value), k + 1)
  {
    SettleIsFirstDecisivePoll(replies, 0);
  }

  /** SettlePolls undecided polls in a row: the toggle does not settle, after exactly SettlePolls polls. */
  lemma NoSettlementAfterAllPolls(replies: nat -> Fetch<ModeDoc>)
    requires forall j :: 0 <= j < SettlePolls ==> !Throws(replies(j)) && !SettlesOn(replies(j))
    ensures Settle(replies) == (Unsettled, SettlePolls)
  {
    SettleIsFirstDecisivePoll(replies, 0);
  }

  /** The settlement loop of `toggleMode`: at most SettlePolls GET /mode requests, leaving at the first decisive one. */
  method AwaitSettlement(replies: nat -> Fetch<ModeDoc>) returns (outcome: Settlement, polls: nat)
    ensures (outcome, polls) == Settle(replies)
  {
    var next: Option<string> := None;
    polls := 0;
    var i := 0;
    while i < SettlePolls
      invariant 0 <= i <= SettlePolls && polls == i
      invariant i < SettlePolls ==> SettleFrom(replies, i) == Settle(replies)
      invariant i == SettlePolls ==> Settle(replies) == (Unsettled, SettlePolls)
    {
      var m := replies(i);
      polls := polls + 1;
      if Throws(m) {
        return PollThrew, polls;
      }
      if SettlesOn(m) {
        next := Some(m.body.value.value);
        break;
      }
      i := i + 1;
    }
    outcome := if next.Some? then Settled(next.value) else Unsettled;
  }

  // ---------------------------------------------------------------------------
  // Stream probes of `retryLoadStream`

  /** Whether the stream became ready and how many HEAD probes were made, given `failures` failed probes so far. */
  function ProbesFrom(probe: nat -> bool, failures: nat): (bool, nat)
    requires failures < MaxAttempts
    decreases MaxAttempts - failures
  {
    if probe(failures) then (true, failures + 1)
    else if failures + 1 < MaxAttempts then ProbesFrom(probe, failures + 1)
    else (false, MaxAttempts)
  }

  function Probe(probe: nat -> bool): (bool, nat)
  {
    ProbesFrom(probe, 0)
  }

  /** Probing stops at the first ready probe, or gives up after MaxAttempts failures. */
  lemma {:induction false} ProbeIsFirstReady(probe: nat -> bool, failures: nat)
    requires failures < MaxAttempts
    ensures var (ready, n) := ProbesFrom(probe, failures);
      && failures < n <= MaxAttempts
      && (forall j :: failures <= j < n - 1 ==> !probe(j))
      && (ready <==> probe(n - 1))
      && (!ready ==> n == MaxAttempts)
    decreases MaxAttempts - failures
  {
    if !probe(failures) && failures + 1 < MaxAttempts {
      ProbeIsFirstReady(probe, failures + 1);
    }
  }

  /** k failed probes then a ready one (k < MaxAttempts): k + 1 probes, and the stream is attached. */
  lemma StreamReadyAfterFailures(probe: nat -> bool, k: nat)
    requires k < MaxAttempts
    requires forall j :: 0 <= j < k ==> !probe(j)
    requires probe(k)
    ensures Probe(probe) == (true, k + 1)
  {
    ProbeIsFirstReady(probe, 0);
  }

  /** A stream that never becomes ready is probed exactly MaxAttempts times. */
  lemma StreamExhausted(probe: nat -> bool)
    requires forall j :: 0 <= j < MaxAttempts ==> !probe(j)
    ensures Probe(probe) == (false, MaxAttempts)
  {
    ProbeIsFirstReady(probe, 0);
  }

  /** The `check` chain of `retryLoadStream`, with its `attempts` counter of failed probes. */
  method ProbeStream(probe: nat -> bool) returns (ready: bool, probes: nat)
    ensures (ready, probes) == Probe(probe)
  {
    var attempts := 0;
    probes := 0;
    while true
      invariant attempts == probes < MaxAttempts
      invariant ProbesFrom(probe, attempts) == Probe(probe)
      decreases MaxAttempts - attempts
    {
      probes := probes + 1;
      if probe(attempts) {
        return true, probes;
      }
      attempts := attempts + 1;
      if attempts >= MaxAttempts {
        return false, probes;
      }
    }
  }

  // ---------------------------------------------------------------------------
  // The component's state and its callbacks

  class App {
    const imageEndpoint: string
    var sensorData: Option<Reading>
    var lastSensorUpdate: Option<string>
    var sensorHistory: seq<ChartPoint>
    var imageURL: Option<ImageRef>
    var mode: string
    var modeLoading: bool
    var apiOnline: bool
    var error: Option<string>
    /** Calls of `attachHls`, whose effect on the video element is not modelled. */
    var attachCount: nat
    /** The `cancelled` latch of the sensor-poll effect. */
    var sensorCancelled: bool
    /** The `cancelled` latch of the mode-watcher effect. */
    var modeCancelled: bool

    ghost predicate Valid()
      reads this
    {
      |sensorHistory| <= MaxPoints
    }

    constructor (apiBase: string)
      ensures Valid()
      ensures imageEndpoint == apiBase + "/latest-image"
      ensures sensorData.None? && lastSensorUpdate.None? && sensorHistory == [] && imageURL.None?
      ensures mode == ModeUnknown && !modeLoading && apiOnline && error.None?
      ensures attachCount == 0 && !sensorCancelled && !modeCancelled
    {
      imageEndpoint := apiBase + "/latest-image";
      sensorData, lastSensorUpdate, sensorHistory, imageURL := None, None, [], None;
      mode, modeLoading, apiOnline, error := ModeUnknown, false, true, None;
      attachCount, sensorCancelled, modeCancelled := 0, false, false;
    }

    /** `fetchSensor` resolving with `tick.reply`. */
    method FetchSensorResolved(tick: SensorTick)
      requires Valid()
      modifies this`sensorData, this`lastSensorUpdate, this`sensorHistory, this`error
      ensures Valid()
      ensures sensorCancelled ==> unchanged(this)
      ensures !sensorCancelled && Delivered(tick.reply) ==>
        && sensorData == Some(tick.reply.body.value)
        && lastSensorUpdate == Some(tick.time)
        && sensorHistory == AppendBounded(old(sensorHistory), ChartPointOf(tick.reply.body.value, tick.time))
        && error == old(error)
      ensures !sensorCancelled && !Delivered(tick.reply) ==>
        && error == Some(SensorOffline)
        && sensorData == old(sensorData)
        && lastSensorUpdate == old(lastSensorUpdate)
        && sensorHistory == old(sensorHistory)
    {
      if Delivered(tick.reply) {
        if sensorCancelled {
          return;
        }
        var data := tick.reply.body.value;
        sensorData := Some(data);
        lastSensorUpdate := Some(tick.time);
        sensorHistory := AppendBounded(sensorHistory, ChartPointOf(data, tick.time));
      } else if !sensorCancelled {
        error := Some(SensorOffline);
      }
    }

    /** The sensor effect's immediate poll and interval ticks, resolving one after another. */
    method RunSensorPolls(ticks: seq<SensorTick>)
      requires Valid()
      modifies this`sensorData, this`lastSensorUpdate, this`sensorHistory, this`error
      ensures Valid()
      ensures sensorCancelled ==> unchanged(this)
      ensures !sensorCancelled ==> sensorHistory == Last(old(sensorHistory) + SuccessPoints(ticks), MaxPoints)
      ensures !sensorCancelled && LastDelivered(ticks).None? ==>
        sensorData == old(sensorData) && lastSensorUpdate == old(lastSensorUpdate)
      ensures !sensorCancelled && LastDelivered(ticks).Some? ==>
        var t := ticks[LastDelivered(ticks).value];
        sensorData == Some(t.reply.body.value) && lastSensorUpdate == Some(t.time)
      ensures !sensorCancelled ==> error == if SomePollFailed(ticks) then Some(SensorOffline) else old(error)
    {
      var i := 0;
      while i < |ticks|
        invariant 0 <= i <= |ticks|
        invariant Valid()
        invariant sensorCancelled ==> unchanged(this)
        invariant !sensorCancelled ==> sensorHistory == HistoryAfter(old(sensorHistory), SuccessPoints(ticks[..i]))
        invariant !sensorCancelled && LastDelivered(ticks[..i]).None? ==>
          sensorData == old(sensorData) && lastSensorUpdate == old(lastSensorUpdate)
        invariant !sensorCancelled && LastDelivered(ticks[..i]).Some? ==>
          var t := ticks[LastDelivered(ticks[..i]).value];
          sensorData == Some(t.reply.body.value) && lastSensorUpdate == Some(t.time)
        invariant !sensorCancelled ==> error == if SomePollFailed(ticks[..i]) then Some(SensorOffline) else old(error)
      {
        FetchSensorResolved(ticks[i]);
        LastDeliveredStep(ticks, i);
        SomePollFailedStep(ticks, i);
        SuccessPointsStep(ticks, i);
        if !sensorCancelled {
          HistoryAfterStep(old(sensorHistory), SuccessPoints(ticks[..i]), ticks[i]);
        }
        i := i + 1;
      }
      assert ticks[..|ticks|] == ticks;
      HistoryKeepsLastPoints(old(sensorHistory), SuccessPoints(ticks));
    }

    /** Cleanup of the sensor effect: later replies must not change anything. */
    method CancelSensorPolling()
      modifies this`sensorCancelled
      ensures sensorCancelled
    {
      sensorCancelled := true;
    }

    /** `fetchMode` (the mode watcher) resolving with `reply`. */
    method FetchModeResolved(reply: Fetch<ModeDoc>)
      modifies this`mode, this`apiOnline
      ensures modeCancelled ==> unchanged(this)
      ensures !modeCancelled && Delivered(reply) ==>
        apiOnline && mode == (if HasMode(reply.body.value) then reply.body.value.value else old(mode))
      ensures !modeCancelled && !Delivered(reply) ==> !apiOnline && mode == old(mode)
    {
      if Delivered(reply) {
        if modeCancelled {
          return;
        }
        var data := reply.body.value;
        if HasMode(data) {
          mode := data.value;
        }
        apiOnline := true;
      } else if !modeCancelled {
        apiOnline := false;
      }
    }

    /** Cleanup of the mode-watcher effect. */
    method CancelModeWatch()
      modifies this`modeCancelled
      ensures modeCancelled
    {
      modeCancelled := true;
    }

    /** `retryLoadStream`: probe until ready, then attach once; or give up with an error. */
    method RetryLoadStream(probe: nat -> bool) returns (probes: nat)
      modifies this`attachCount, this`error
      ensures probes == Probe(probe).1
      ensures Probe(probe).0 ==> attachCount == old(attachCount) + 1 && error == old(error)
      ensures !Probe(probe).0 ==> attachCount == old(attachCount) && error == Some(StreamUnavailable)
    {
      var ready;
      ready, probes := ProbeStream(probe);
      if ready {
        attachCount := attachCount + 1;
      } else {
        error := Some(StreamUnavailable);
      }
    }

    /**
     * `toggleMode`: one set-mode request for the target, then settlement polls, then
     * (only when the settled mode is stream) stream acquisition.
     */
    method ToggleMode(setModeOk: bool, replies: nat -> Fetch<ModeDoc>, probe: nat -> bool)
      returns (target: string, polls: nat, probes: nat)
      modifies this`mode, this`modeLoading, this`error, this`attachCount
      ensures target == ToggleTarget(old(mode))
      ensures !modeLoading
      ensures polls <= SettlePolls && probes <= MaxAttempts
      ensures !setModeOk ==>
        && polls == 0 && probes == 0
        && mode == old(mode) && error == Some(ToggleFailed) && attachCount == old(attachCount)
      ensures setModeOk ==> polls == Settle(replies).1
      ensures setModeOk && !Settle(replies).0.Settled? ==>
        && mode == old(mode) && error == Some(ToggleFailed)
        && probes == 0 && attachCount == old(attachCount)
      ensures setModeOk && Settle(replies).0.Settled? && Settle(replies).0.mode != ModeStream ==>
        && mode == Settle(replies).0.mode && error.None?
        && probes == 0 && attachCount == old(attachCount)
      ensures setModeOk && Settle(replies).0.Settled? && Settle(replies).0.mode == ModeStream ==>
        && mode == ModeStream
        && probes == Probe(probe).1
        && attachCount == old(attachCount) + (if Probe(probe).0 then 1 else 0)
        && error == (if Probe(probe).0 then None else Some(StreamUnavailable))
    {
      target := ToggleTarget(mode);
      modeLoading := true;
      error := None;
      polls, probes := 0, 0;
      if !setModeOk {
        error := Some(ToggleFailed);
      } else {
        var outcome;
        outcome, polls := AwaitSettlement(replies);
        SettleIsFirstDecisivePoll(replies, 0);
        if outcome.Settled? {
          mode := outcome.mode;
          if outcome.mode == ModeStream {
            probes := RetryLoadStream(probe);
            ProbeIsFirstReady(probe, 0);
          }
        } else {
          error := Some(ToggleFailed);
        }
      }
      modeLoading := false;
    }

    /** The image effect's tick: a fresh cache-busted locator. */
    method RefreshImage(now: nat)
      modifies this`imageURL
      ensures imageURL == Some(ImageRef(imageEndpoint, now))
    {
      imageURL := Some(ImageRef(imageEndpoint, now));
    }

    /**
     * `handleCapture`: on success the delayed refresh fires at clock reading `firedAt`;
     * on failure only the error changes.
     */
    method HandleCapture(captureOk: bool, firedAt: nat)
      modifies this`imageURL, this`error
      ensures captureOk ==> imageURL == Some(ImageRef(imageEndpoint, firedAt)) && error == old(error)
      ensures !captureOk ==> imageURL == old(imageURL) && error == Some(CaptureFailed)
    {
      if captureOk {
        RefreshImage(firedAt);
      } else {
        error := Some(CaptureFailed);
      }
    }
  }
}
