/** The renderer's state: the last snapshot received, the bounded history the load chart
    draws, the `isStressing` flag that guards the start and stop buttons, and the thread
    count typed by the user. */
module Dashboard {
  import opened JsValues
  import opened Telemetry

  /** `MAX_HISTORY_POINTS`: the chart keeps at most this many points. */
  const MAX_HISTORY_POINTS: nat := 60

  /** The `setHistoryData` reducer: append the new point, then drop the oldest one if
      that made the history longer than the window. */
  function NextHistory<P>(prev: seq<P>, point: P): (h: seq<P>)
    ensures |h| == if |prev| < MAX_HISTORY_POINTS then |prev| + 1 else |prev|
    ensures |h| > 0 && h[|h| - 1] == point
    ensures forall k :: 0 <= k < |h| - 1 ==> h[k] == prev[|prev| + 1 - |h| + k]
  {
    var newHistory := prev + [point];
    if |newHistory| > MAX_HISTORY_POINTS then newHistory[1..] else newHistory
  }

  /** The history after the points `received` arrived one by one, starting from `[]`. */
  function Replay<P>(received: seq<P>): seq<P>
  {
    if received == [] then []
    else NextHistory(Replay(received[..|received| - 1]), received[|received| - 1])
  }

  function Min(a: nat, b: nat): nat
  {
    if a < b then a else b
  }

  /** One step of the reducer on the newest window of a prefix gives the newest window of
      the prefix extended by one point. */
  lemma NextHistoryOfWindow<P>(received: seq<P>)
    requires |received| > 0
    ensures var n := |received|;
      NextHistory(received[..n - 1][n - 1 - Min(n - 1, MAX_HISTORY_POINTS)..], received[n - 1])
      == received[n - Min(n, MAX_HISTORY_POINTS)..]
  {
    var n := |received|;
    var before, last := received[..n - 1], received[n - 1];
    assert before + [last] == received;
    if n - 1 >= MAX_HISTORY_POINTS {
      var window := before[n - 1 - MAX_HISTORY_POINTS..];
      assert (window + [last])[1..] == received[n - MAX_HISTORY_POINTS..];
    }
  }

  /** The history is always exactly the newest `MAX_HISTORY_POINTS` points received (all
      of them while fewer have arrived), oldest first. */
  lemma {:induction false} ReplayKeepsNewestWindow<P>(received: seq<P>)
    ensures Replay(received) == received[|received| - Min(|received|, MAX_HISTORY_POINTS)..]
  {
    if received != [] {
      ReplayKeepsNewestWindow(received[..|received| - 1]);
      NextHistoryOfWindow(received);
    }
  }

  /** Receiving one more point steps the history by the reducer. */
  lemma ReplayStep<P>(received: seq<P>, point: P)
    ensures Replay(received + [point]) == NextHistory(Replay(received), point)
  {
    assert (received + [point])[..|received|] == received;
  }

  /** Whatever arrives, the history never holds more than `MAX_HISTORY_POINTS` points, and
      once that many have arrived it holds exactly that many. */
  lemma HistoryBounded<P>(received: seq<P>)
    ensures |Replay(received)| == Min(|received|, MAX_HISTORY_POINTS)
  {
    ReplayKeepsNewestWindow(received);
  }

  /** One chart point: the local time of arrival and the three values parsed back from
      the snapshot's texts. */
  datatype HistoryPoint = HistoryPoint(time: string, load: Num, temp: real, speed: real)

  /** `parseFloat` of a field's text. The digits `toFixed` keeps are not modelled: a
      formatted number parses back to itself; "0.0" parses to 0 and "N/A" to `NaN`. */
  function ParseShown(s: Shown): Num
  {
    match s
    case Formatted(v, _) => v
    case Literal(t) => if t == ZERO_LOAD_TEXT then Finite(0.0) else NotANumber
  }

  /** `n || 0` on a number: `NaN` and zero both give 0. */
  function OrZero(n: Num): real
  {
    if n.Finite? then n.x else 0.0
  }

  /** The `newPoint` built from a snapshot: an unavailable temperature or speed becomes 0 on
      the chart, a zero-load sentinel becomes a load of 0, and formatted readings carry
      their value over. */
  function NewPoint(time: string, data: Snapshot): (p: HistoryPoint)
    ensures p.time == time
    ensures data.totalLoad == Literal(ZERO_LOAD_TEXT) ==> p.load == Finite(0.0)
    ensures data.totalLoad.Formatted? ==> p.load == data.totalLoad.value
    ensures data.temp == Literal(UNAVAILABLE_TEXT) ==> p.temp == 0.0
    ensures data.speed == Literal(UNAVAILABLE_TEXT) ==> p.speed == 0.0
    ensures data.temp.Formatted? && data.temp.value.Finite? ==> p.temp == data.temp.value.x
    ensures data.speed.Formatted? && data.speed.value.Finite? ==> p.speed == data.speed.value.x
  {
    HistoryPoint(time, ParseShown(data.totalLoad), OrZero(ParseShown(data.temp)), OrZero(ParseShown(data.speed)))
  }

  /** The start button asks for `Math.max(1, parseInt(numThreads))` workers: the main
      process's spawn loop then runs at least once whenever the field holds an integer,
      and not at all when it holds no number. */
  lemma ClampedRequestSpawns(n: ParsedInt)
    ensures n.Int? ==> Iterations(ClampAtLeastOne(n)) >= 1
    ensures n.Int? && n.value >= 1 ==> Iterations(ClampAtLeastOne(n)) == n.value
    ensures n.IntNaN? ==> Iterations(ClampAtLeastOne(n)) == 0
  {
  }

  class Dashboard {
    /** `monitorData`: the snapshot shown on the cards. */
    var monitorData: Snapshot
    /** `historyData`: the points the load chart draws, oldest first. */
    var historyData: seq<HistoryPoint>
    var isStressing: bool
    /** `numThreads`: the thread-count field, as `parseInt` read it. */
    var numThreads: ParsedInt
    /** Every point received so far. */
    ghost var received: seq<HistoryPoint>

    ghost predicate Valid()
      reads this
    {
      historyData == Replay(received)
    }

    /** The initial `useState` values. */
    constructor ()
      ensures Valid()
      ensures monitorData == INITIAL_SNAPSHOT && historyData == [] && received == []
      ensures !isStressing && numThreads == Int(1)
    {
      monitorData := INITIAL_SNAPSHOT;
      historyData := [];
      isStressing := false;
      numThreads := Int(1);
      received := [];
    }

    /** The `cpu-data-update` listener; `time` is the local clock reading. */
    method OnCpuDataUpdate(data: Snapshot, time: string)
      requires Valid()
      modifies this
      ensures Valid()
      ensures monitorData == data
      ensures received == old(received) + [NewPoint(time, data)]
      ensures historyData == NextHistory(old(historyData), NewPoint(time, data))
      ensures |historyData| <= MAX_HISTORY_POINTS
      ensures isStressing == old(isStressing) && numThreads == old(numThreads)
    {
      var point := NewPoint(time, data);
      var newHistory := NextHistory(historyData, point);
      ghost var newReceived := received + [point];
      assert newHistory == Replay(newReceived) by {
        ReplayStep(received, point);
      }
      assert |newHistory| <= MAX_HISTORY_POINTS by {
        HistoryBounded(newReceived);
      }
      monitorData := data;
      historyData := newHistory;
      received := newReceived;
    }

    /** `handleStartStress`: nothing while stressing; otherwise requests
        `Math.max(1, numThreads)` workers and marks the test as running. `request` is the
        argument passed to `startStress`, `None` when none is made. */
    method HandleStartStress() returns (request: Option<ParsedInt>)
      requires Valid()
      modifies this
      ensures Valid() && isStressing
      ensures old(isStressing) ==> request == None
      ensures !old(isStressing) ==> request == Some(ClampAtLeastOne(numThreads))
      ensures monitorData == old(monitorData) && historyData == old(historyData) && received == old(received)
      ensures numThreads == old(numThreads)
    {
      if isStressing {
        return None;
      }
      var threadsToUse := ClampAtLeastOne(numThreads);
      request := Some(threadsToUse);
      isStressing := true;
    }

    /** `handleStopStress`: nothing while not stressing; otherwise requests a stop and
        marks the test as stopped. `requested` says whether `stopStress` was called. */
    method HandleStopStress() returns (requested: bool)
      requires Valid()
      modifies this
      ensures Valid() && !isStressing
      ensures requested == old(isStressing)
      ensures monitorData == old(monitorData) && historyData == old(historyData) && received == old(received)
      ensures numThreads == old(numThreads)
    {
      if !isStressing {
        return false;
      }
      requested := true;
      isStressing := false;
    }

    /** `handleThreadChange`: stores the parsed value of the field. */
    method HandleThreadChange(value: ParsedInt)
      requires Valid()
      modifies this
      ensures Valid() && numThreads == value
      ensures monitorData == old(monitorData) && historyData == old(historyData) && received == old(received)
      ensures isStressing == old(isStressing)
    {
      numThreads := value;
    }
  }
}
