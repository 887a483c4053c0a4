/** The snapshot the monitoring tick builds from the three hardware readings and pushes
    to the window on the `cpu-data-update` channel. Every field chooses on its own between
    the formatted reading and a sentinel, so one missing reading never blocks the others. */
module Telemetry {
  import opened JsValues

  /** Sentinel for a total load that is missing, `NaN` or zero. A formatted load below
      0.05 prints as the same text; `Shown` keeps the two apart. */
  const ZERO_LOAD_TEXT: string := "0.0"
  /** Sentinel for a temperature or clock speed that is missing, `NaN` or zero. */
  const UNAVAILABLE_TEXT: string := "N/A"
  /** `toFixed` digits: loads and temperature with one decimal, clock speed with two. */
  const LOAD_DECIMALS: nat := 1
  const TEMP_DECIMALS: nat := 1
  const SPEED_DECIMALS: nat := 2

  /** A field as sent: the text `value.toFixed(decimals)`, kept as the number and the digit
      count it is formatted with, or a literal sentinel text. */
  datatype Shown = Formatted(value: Num, decimals: nat) | Literal(text: string)

  datatype Snapshot = Snapshot(totalLoad: Shown, coresLoad: seq<Shown>, temp: Shown, speed: Shown)

  /** What the renderer shows before the first snapshot arrives. */
  const INITIAL_SNAPSHOT: Snapshot :=
    Snapshot(Literal(ZERO_LOAD_TEXT), [], Literal(UNAVAILABLE_TEXT), Literal(UNAVAILABLE_TEXT))

  /** The part of the current-load query the snapshot reads: `currentLoad`, and `cpus`,
      which is `None` when it is not an array and otherwise holds each core's `load`. */
  datatype LoadInfo = LoadInfo(currentLoad: Reading, cpus: Option<seq<Reading>>)

  /** Outcome of the three awaited queries of one tick: one of them threw, or they
      answered with the load, the main temperature and the average clock speed. */
  datatype Queries = QueryThrew | Answered(load: LoadInfo, temp: Reading, speed: Reading)

  /** `r ? r.toFixed(decimals) : sentinel` */
  function FormatOr(r: Reading, decimals: nat, sentinel: string): Shown
  {
    if Truthy(r) then Formatted(r.value, decimals) else Literal(sentinel)
  }

  /** `cpus.map(core => core.load.toFixed(1))`: calling `toFixed` on a missing load throws,
      which `None` stands for; a `NaN` load is formatted (as the text "NaN"). */
  function FormatCores(cpus: seq<Reading>): (r: Option<seq<Shown>>)
    ensures r.Some? <==> forall i :: 0 <= i < |cpus| ==> cpus[i].Some?
    ensures r.Some? ==> |r.value| == |cpus|
    ensures r.Some? ==> forall i :: 0 <= i < |cpus| ==> r.value[i] == Formatted(cpus[i].value, LOAD_DECIMALS)
  {
    if cpus == [] then Some([])
    else match cpus[0]
      case None => None
      case Some(load) =>
        var rest := FormatCores(cpus[1..]);
        if rest.None? then None else Some([Formatted(load, LOAD_DECIMALS)] + rest.value)
  }

  /** The record built from the three readings; `None` when building it throws, which
      happens exactly when `cpus` is an array holding a core without a load. */
  function BuildSnapshot(load: LoadInfo, temp: Reading, speed: Reading): (r: Option<Snapshot>)
    ensures r.None? <==> load.cpus.Some? && exists i :: 0 <= i < |load.cpus.value| && load.cpus.value[i].None?
    ensures r.Some? ==> (r.value.totalLoad == Literal(ZERO_LOAD_TEXT) <==> !Truthy(load.currentLoad))
    ensures r.Some? && Truthy(load.currentLoad) ==> r.value.totalLoad == Formatted(load.currentLoad.value, LOAD_DECIMALS)
    ensures r.Some? && load.cpus.None? ==> r.value.coresLoad == []
    ensures r.Some? && load.cpus.Some? ==> |r.value.coresLoad| == |load.cpus.value|
    ensures r.Some? && load.cpus.Some? ==> forall i :: 0 <= i < |load.cpus.value| ==>
      r.value.coresLoad[i] == Formatted(load.cpus.value[i].value, LOAD_DECIMALS)
    ensures r.Some? ==> (r.value.temp == Literal(UNAVAILABLE_TEXT) <==> !Truthy(temp))
    ensures r.Some? && Truthy(temp) ==> r.value.temp == Formatted(temp.value, TEMP_DECIMALS)
    ensures r.Some? ==> (r.value.speed == Literal(UNAVAILABLE_TEXT) <==> !Truthy(speed))
    ensures r.Some? && Truthy(speed) ==> r.value.speed == Formatted(speed.value, SPEED_DECIMALS)
  {
    var cores := if load.cpus.None? then Some([]) else FormatCores(load.cpus.value);
    if cores.None? then None
    else Some(Snapshot(
      FormatOr(load.currentLoad, LOAD_DECIMALS, ZERO_LOAD_TEXT),
      cores.value,
      FormatOr(temp, TEMP_DECIMALS, UNAVAILABLE_TEXT),
      FormatOr(speed, SPEED_DECIMALS, UNAVAILABLE_TEXT)))
  }

  /** The snapshot one tick sends, or `None` when the tick throws (a query threw, or
      building the record did). */
  function Sample(q: Queries): (r: Option<Snapshot>)
    ensures r.None? <==> (q.QueryThrew? ||
      (q.Answered? && q.load.cpus.Some? && exists i :: 0 <= i < |q.load.cpus.value| && q.load.cpus.value[i].None?))
    ensures r.Some? ==> q.Answered?
    ensures r.Some? ==> (r.value.totalLoad == Literal(ZERO_LOAD_TEXT) <==> !Truthy(q.load.currentLoad))
    ensures r.Some? ==> (r.value.temp == Literal(UNAVAILABLE_TEXT) <==> !Truthy(q.temp))
    ensures r.Some? ==> (r.value.speed == Literal(UNAVAILABLE_TEXT) <==> !Truthy(q.speed))
  {
    match q
    case QueryThrew => None
    case Answered(load, temp, speed) => BuildSnapshot(load, temp, speed)
  }

  /** A missing or failed temperature or clock reading changes only its own field: the
      snapshot is built, or not, exactly as it would be with both readings present, and
      the load fields are the same. */
  lemma FieldsFallBackIndependently(load: LoadInfo, temp: Reading, speed: Reading, temp': Reading, speed': Reading)
    ensures BuildSnapshot(load, temp, speed).Some? <==> BuildSnapshot(load, temp', speed').Some?
    ensures BuildSnapshot(load, temp, speed).Some? ==>
      && BuildSnapshot(load, temp, speed).value.totalLoad == BuildSnapshot(load, temp', speed').value.totalLoad
      && BuildSnapshot(load, temp, speed).value.coresLoad == BuildSnapshot(load, temp', speed').value.coresLoad
  {
  }

  /** A temperature of exactly zero is falsy, so it is shown as the sentinel and not as "0.0". */
  lemma ZeroTemperatureShowsSentinel(load: LoadInfo, speed: Reading)
    requires BuildSnapshot(load, Some(Finite(0.0)), speed).Some?
    ensures BuildSnapshot(load, Some(Finite(0.0)), speed).value.temp == Literal(UNAVAILABLE_TEXT)
  {
  }

  /** A clock speed of exactly zero is falsy, so it is shown as the sentinel. */
  lemma ZeroSpeedShowsSentinel(load: LoadInfo, temp: Reading)
    requires BuildSnapshot(load, temp, Some(Finite(0.0))).Some?
    ensures BuildSnapshot(load, temp, Some(Finite(0.0))).value.speed == Literal(UNAVAILABLE_TEXT)
  {
  }
}
