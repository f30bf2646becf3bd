/**
 The Location engine up to its zones, as specifications: closed-bar history, confirmed swings, zones sized
 by the ATR at confirmation, deduplication and lifecycle.  Times are whole seconds, prices exact reals,
 and a raised `LocationDataError` is an `Err`.
 */
module LocationModel {
  import opened Common
  import opened Candles
  import Grid
  import Indicators
  import Sorting

  const MIN_H4_BARS := 60
  const ATR_PERIOD := 14

  datatype LocationError =
    | InvalidConfig | LimitNotPositive | TimestampsNotIncreasing | InsufficientHistory
    | PriceNotPositive | OhlcOutOfRange | InvalidZone | ConflictingZoneId
    | FutureData | ConfirmationMissing | AtrUnavailable | TickNotPositive

  datatype Config = Config(
    swingLookback: int, historyBars: int, zoneHalfWidthAtr: real, zoneMaxWidthAtr: real,
    invalidationCloseCount: int, invalidationBufferAtr: real, zoneMaxAge: int,
    proximityZeroAt: real, clearanceFullAt: real, unknownClearance: real)
  {
    predicate Valid() {
      && swingLookback >= 2 && historyBars >= MIN_H4_BARS && invalidationCloseCount > 0 && zoneMaxAge > 0
      && zoneHalfWidthAtr > 0.0 && zoneMaxWidthAtr > 0.0 && invalidationBufferAtr > 0.0
      && proximityZeroAt > 0.0 && clearanceFullAt > 0.0 && 0.0 <= unknownClearance < 1.0
    }
  }

  datatype Role = Support | Resistance

  datatype ZoneStatus = Active | Suspect | Invalidated | Expired

  /** The text "role:open-time" of the source, kept as its two parts. */
  datatype ZoneId = ZoneId(role: Role, formedAt: int)

  datatype Zone = Zone(
    id: ZoneId, role: Role, low: real, high: real, formedAt: int, confirmedAt: int, formationAtr: real,
    status: ZoneStatus)
  {
    /** What construction checks. */
    predicate Valid() {
      low > 0.0 && high > 0.0 && low <= high && formedAt <= confirmedAt && formationAtr > 0.0
    }
  }

  datatype ClosedCandle = ClosedCandle(candle: Candle, openTime: int, closedAt: int)

  datatype Swing = Swing(id: ZoneId, role: Role, level: real, formedAt: int, confirmedAt: int)

  // ---------- closed history ----------

  predicate Increasing(candles: seq<Candle>) {
    forall i :: 0 < i < |candles| ==> candles[i - 1].time < candles[i].time
  }

  function Closed(candle: Candle, timeframe: Timeframe): ClosedCandle {
    ClosedCandle(candle, candle.time, candle.time + Interval(timeframe))
  }

  /** The bars closed at the cutoff, in stream order. */
  function ClosedBars(candles: seq<Candle>, timeframe: Timeframe, cutoff: int): seq<ClosedCandle> {
    if candles == [] then []
    else
      var last := Closed(candles[|candles| - 1], timeframe);
      ClosedBars(candles[..|candles| - 1], timeframe, cutoff) + if last.closedAt <= cutoff then [last] else []
  }

  function Newest(bars: seq<ClosedCandle>, limit: Option<int>): seq<ClosedCandle>
    requires limit.Some? ==> limit.value > 0
  {
    if limit.None? || |bars| <= limit.value then bars else bars[|bars| - limit.value..]
  }

  function ClosedAtCutoff(candles: seq<Candle>, timeframe: Timeframe, cutoff: int, limit: Option<int>)
    : Result<seq<ClosedCandle>, LocationError>
  {
    if limit.Some? && limit.value <= 0 then Err(LimitNotPositive)
    else if !Increasing(candles) then Err(TimestampsNotIncreasing)
    else Ok(Newest(ClosedBars(candles, timeframe, cutoff), limit))
  }

  function CandleFault(c: Candle): Option<LocationError> {
    if c.open <= 0.0 || c.high <= 0.0 || c.low <= 0.0 || c.close <= 0.0 then Some(PriceNotPositive)
    else if c.low > c.high || c.open < c.low || c.open > c.high || c.close < c.low || c.close > c.high
    then Some(OhlcOutOfRange)
    else None
  }

  /** The fault of the first faulty bar. */
  function FirstFault(bars: seq<ClosedCandle>, n: nat): Option<LocationError>
    requires n <= |bars|
  {
    if n == 0 then None
    else if FirstFault(bars, n - 1).Some? then FirstFault(bars, n - 1)
    else CandleFault(bars[n - 1].candle)
  }

  function H4History(candles: seq<Candle>, cutoff: int, config: Config): Result<seq<ClosedCandle>, LocationError> {
    if !config.Valid() then Err(InvalidConfig)
    else
      var eligible := ClosedAtCutoff(candles, H4, cutoff, Some(config.historyBars));
      if eligible.Err? then eligible
      else if |eligible.value| < MIN_H4_BARS then Err(InsufficientHistory)
      else
        var fault := FirstFault(eligible.value, |eligible.value|);
        if fault.Some? then Err(fault.value) else eligible
  }

  // ---------- swings ----------

  function Greatest(values: seq<real>): real
    requires values != []
  {
    if |values| == 1 then values[0]
    else Indicators.Max(Greatest(values[..|values| - 1]), values[|values| - 1])
  }

  function Least(values: seq<real>): real
    requires values != []
  {
    if |values| == 1 then values[0]
    else Indicators.Min(Least(values[..|values| - 1]), values[|values| - 1])
  }

  function CountOf(values: seq<real>, x: real): nat {
    if values == [] then 0
    else CountOf(values[..|values| - 1], x) + if values[|values| - 1] == x then 1 else 0
  }

  function Highs(bars: seq<ClosedCandle>): (r: seq<real>)
    ensures |r| == |bars|
  {
    seq(|bars|, i requires 0 <= i < |bars| => bars[i].candle.high)
  }

  function Lows(bars: seq<ClosedCandle>): (r: seq<real>)
    ensures |r| == |bars|
  {
    seq(|bars|, i requires 0 <= i < |bars| => bars[i].candle.low)
  }

  function Closes(bars: seq<ClosedCandle>): (r: seq<real>)
    ensures |r| == |bars|
  {
    seq(|bars|, i requires 0 <= i < |bars| => bars[i].candle.close)
  }

  /** The swings centred on bar `i`: at most one high, then at most one low. */
  function SwingsAt(history: seq<ClosedCandle>, lookback: nat, cutoff: int, i: nat): seq<Swing>
    requires lookback <= i && i + lookback < |history|
  {
    var window := history[i - lookback..i + lookback + 1];
    var high, low := history[i].candle.high, history[i].candle.low;
    var formedAt, confirmedAt := history[i].openTime, history[i + lookback].closedAt;
    if confirmedAt > cutoff then []
    else
      (if high == Greatest(Highs(window)) && CountOf(Highs(window), high) == 1
       then [Swing(ZoneId(Resistance, formedAt), Resistance, high, formedAt, confirmedAt)] else [])
      + (if low == Least(Lows(window)) && CountOf(Lows(window), low) == 1
         then [Swing(ZoneId(Support, formedAt), Support, low, formedAt, confirmedAt)] else [])
  }

  /** The swings centred before bar `m`, in scan order. */
  function SwingsBefore(history: seq<ClosedCandle>, lookback: nat, cutoff: int, m: nat): seq<Swing>
    requires m > lookback ==> m + lookback <= |history|
  {
    if m <= lookback then []
    else SwingsBefore(history, lookback, cutoff, m - 1) + SwingsAt(history, lookback, cutoff, m - 1)
  }

  function SwingEnd(history: seq<ClosedCandle>, lookback: nat): nat {
    if |history| >= lookback then |history| - lookback else 0
  }

  function SwingPoints(history: seq<ClosedCandle>, lookback: nat, cutoff: int): seq<Swing> {
    SwingsBefore(history, lookback, cutoff, SwingEnd(history, lookback))
  }

  // ---------- zones ----------

  function AtrValues(history: seq<ClosedCandle>): (r: seq<Option<real>>)
    ensures |r| == |history|
  {
    Indicators.AtrSeries(Highs(history), Lows(history), Closes(history), ATR_PERIOD).value
  }

  /** The dictionary from close time to bar index. */
  function ConfirmationIndex(history: seq<ClosedCandle>): map<int, nat> {
    if history == [] then map[]
    else
      var n := |history| - 1;
      ConfirmationIndex(history[..n])[history[n].closedAt := n]
  }

  /** One swing yields no zone, an invalid zone that fails the build, or a zone. */
  datatype Built = Skipped | Failed | Made(zone: Zone)

  function FormationAtr(swing: Swing, index: map<int, nat>, atrs: seq<Option<real>>): Option<real> {
    if swing.confirmedAt in index && index[swing.confirmedAt] < |atrs| then atrs[index[swing.confirmedAt]] else None
  }

  function HalfWidth(config: Config, formationAtr: real): real {
    config.zoneHalfWidthAtr * formationAtr
  }

  function WidthLimit(config: Config, formationAtr: real): real {
    formationAtr * config.zoneMaxWidthAtr
  }

  function ZoneBounds(level: real, halfWidth: real, tick: Option<Grid.GridStep>): (real, real) {
    var low, high := level - halfWidth, level + halfWidth;
    if tick.None? then (low, high)
    else
      var l := Grid.FloorTo(low, tick.value);
      var h := Grid.CeilTo(high, tick.value);
      if h <= l then (l, l + tick.value) else (l, h)
  }

  /** The zone of a swing whose confirmation ATR is `formationAtr`. */
  function SizedZone(swing: Swing, formationAtr: Option<real>, config: Config, tick: Option<Grid.GridStep>): Built {
    if formationAtr.None? || formationAtr.value <= 0.0 then Skipped
    else
      var bounds := ZoneBounds(swing.level, HalfWidth(config, formationAtr.value), tick);
      if bounds.1 - bounds.0 > WidthLimit(config, formationAtr.value) then Skipped
      else
        var zone := Zone(swing.id, swing.role, bounds.0, bounds.1, swing.formedAt, swing.confirmedAt,
                         formationAtr.value, Active);
        if zone.Valid() then Made(zone) else Failed
  }

  function BuildZone(swing: Swing, index: map<int, nat>, atrs: seq<Option<real>>, config: Config, tick: Option<Grid.GridStep>)
    : Built
  {
    SizedZone(swing, FormationAtr(swing, index, atrs), config, tick)
  }

  function BuildAll(swings: seq<Swing>, index: map<int, nat>, atrs: seq<Option<real>>, config: Config,
                    tick: Option<Grid.GridStep>): Result<seq<Zone>, LocationError>
  {
    if swings == [] then Ok([])
    else
      var earlier := BuildAll(swings[..|swings| - 1], index, atrs, config, tick);
      if earlier.Err? then earlier
      else
        match BuildZone(swings[|swings| - 1], index, atrs, config, tick)
        case Skipped => earlier
        case Failed => Err(InvalidZone)
        case Made(zone) => Ok(earlier.value + [zone])
  }

  // ---------- deduplication ----------

  predicate IdLeq(a: ZoneId, b: ZoneId) {
    if a.role != b.role then a.role == Resistance else a.formedAt <= b.formedAt
  }

  /** Supports first, then by confirmation, then by id. */
  predicate ZoneLeq(a: Zone, b: Zone) {
    if a.role != b.role then a.role == Support
    else if a.confirmedAt != b.confirmedAt then a.confirmedAt < b.confirmedAt
    else IdLeq(a.id, b.id)
  }

  predicate Conflicting(zones: seq<Zone>) {
    exists i, j :: 0 <= i < j < |zones| && zones[i].id == zones[j].id && zones[i] != zones[j]
  }

  /** Each record once, in order of first appearance. */
  function Uniques(zones: seq<Zone>): seq<Zone> {
    if zones == [] then []
    else
      var earlier := Uniques(zones[..|zones| - 1]);
      if zones[|zones| - 1] in earlier then earlier else earlier + [zones[|zones| - 1]]
  }

  function Deduplicated(zones: seq<Zone>): Result<seq<Zone>, LocationError> {
    if Conflicting(zones) then Err(ConflictingZoneId) else Ok(Sorting.Sort(ZoneLeq, Uniques(zones)))
  }

  // ---------- lifecycle ----------

  /** The closes from a time on. */
  function ClosesSince(history: seq<ClosedCandle>, since: int): seq<real> {
    if history == [] then []
    else
      var last := history[|history| - 1];
      ClosesSince(history[..|history| - 1], since) + if last.closedAt >= since then [last.candle.close] else []
  }

  function BreakLine(zone: Zone, config: Config): real {
    var buffer := config.invalidationBufferAtr * zone.formationAtr;
    if zone.role == Support then zone.low - buffer else zone.high + buffer
  }

  predicate Breaches(zone: Zone, config: Config, close: real) {
    if zone.role == Support then close < BreakLine(zone, config) else close > BreakLine(zone, config)
  }

  /** The last `run` of the first `n` closes all lie strictly beyond the break line. */
  predicate BreachRun(zone: Zone, config: Config, closes: seq<real>, n: nat, run: nat)
    requires n <= |closes|
  {
    run <= n && forall i :: n - run <= i < n ==> Breaches(zone, config, closes[i])
  }

  /** Enough consecutive closes beyond the break line, anywhere in the first `n`. */
  predicate BrokenBy(zone: Zone, config: Config, closes: seq<real>, n: nat)
    requires n <= |closes| && config.invalidationCloseCount >= 0
  {
    exists k :: 0 <= k <= n && BreachRun(zone, config, closes, k, config.invalidationCloseCount)
  }

  /** What the status of a zone means, from the closes since its confirmation. */
  function StatusFor(zone: Zone, config: Config, closes: seq<real>): ZoneStatus
    requires config.invalidationCloseCount >= 0
  {
    if BrokenBy(zone, config, closes, |closes|) then Invalidated
    else if |closes| - 1 > config.zoneMaxAge then Expired
    else if closes != [] && Breaches(zone, config, closes[|closes| - 1]) then Suspect
    else Active
  }

  predicate Dead(status: ZoneStatus) {
    status == Invalidated || status == Expired
  }

  predicate ClosesAt(history: seq<ClosedCandle>, t: int) {
    exists i :: 0 <= i < |history| && history[i].closedAt == t
  }

  function UpdatedZone(zone: Zone, history: seq<ClosedCandle>, cutoff: int, config: Config): Result<Zone, LocationError>
    requires config.invalidationCloseCount >= 0
  {
    if Dead(zone.status) then Ok(zone)
    else if zone.confirmedAt > cutoff then Err(FutureData)
    else if !ClosesAt(history, zone.confirmedAt) then Err(ConfirmationMissing)
    else Ok(zone.(status := StatusFor(zone, config, ClosesSince(history, zone.confirmedAt))))
  }

  function Updated(zones: seq<Zone>, history: seq<ClosedCandle>, cutoff: int, config: Config)
    : Result<seq<Zone>, LocationError>
    requires config.invalidationCloseCount >= 0
  {
    if zones == [] then Ok([])
    else
      var earlier := Updated(zones[..|zones| - 1], history, cutoff, config);
      if earlier.Err? then earlier
      else
        var last := UpdatedZone(zones[|zones| - 1], history, cutoff, config);
        if last.Err? then Err(last.error) else Ok(earlier.value + [last.value])
  }

  /** Lifecycle as callers use it: on any list of zones, and on the adapter's candles. */
  function LifecycleOf(zones: seq<Zone>, candles: seq<Candle>, cutoff: int, config: Config)
    : Result<seq<Zone>, LocationError>
  {
    if !config.Valid() then Err(InvalidConfig)
    else
      var unique := Deduplicated(zones);
      if unique.Err? then unique
      else
        var history := H4History(candles, cutoff, config);
        if history.Err? then Err(history.error) else Updated(unique.value, history.value, cutoff, config)
  }

  // ---------- the zone pipeline ----------

  /** The zones of the swings, before deduplication and lifecycle. */
  function RawZones(history: seq<ClosedCandle>, cutoff: int, config: Config, tick: Option<Grid.GridStep>)
    : Result<seq<Zone>, LocationError>
    requires config.Valid()
  {
    BuildAll(SwingPoints(history, config.swingLookback, cutoff), ConfirmationIndex(history), AtrValues(history), config,
             tick)
  }

  function ZonesFromHistory(history: seq<ClosedCandle>, cutoff: int, config: Config, tick: Option<Grid.GridStep>)
    : Result<seq<Zone>, LocationError>
    requires config.Valid()
  {
    var raw := RawZones(history, cutoff, config, tick);
    if raw.Err? then raw
    else
      var unique := Deduplicated(raw.value);
      if unique.Err? then unique else Updated(unique.value, history, cutoff, config)
  }

  predicate BadTick(tick: Option<real>) {
    tick.Some? && tick.value <= 0.0
  }

  function TickStep(tick: Option<real>): Option<Grid.GridStep>
    requires !BadTick(tick)
  {
    if tick.None? then None else Some(tick.value)
  }

  function BuildZones(candles: seq<Candle>, cutoff: int, config: Config, tick: Option<real>)
    : Result<seq<Zone>, LocationError>
  {
    if !config.Valid() then Err(InvalidConfig)
    else if BadTick(tick) then Err(TickNotPositive)
    else
      var history := H4History(candles, cutoff, config);
      if history.Err? then Err(history.error) else ZonesFromHistory(history.value, cutoff, config, TickStep(tick))
  }

  // ---------- the context ----------

  datatype Context = Context(
    referencePrice: real, referenceClosedAt: Option<int>, cutoff: int, currentAtr: Option<real>, zones: seq<Zone>,
    barsConsidered: nat, config: Config, tick: Option<real>)
  {
    /** What construction checks. */
    predicate Valid() {
      && config.Valid() && referencePrice > 0.0 && barsConsidered > 0 && !BadTick(tick)
      && (referenceClosedAt.Some? ==> referenceClosedAt.value <= cutoff)
      && (currentAtr.Some? ==> currentAtr.value > 0.0)
      && forall k :: 0 <= k < |zones| ==> zones[k].Valid()
    }
  }

  function BuildContext(candles: seq<Candle>, referencePrice: real, referenceClosedAt: Option<int>, cutoff: int,
                        config: Config, tick: Option<real>): Result<Context, LocationError>
  {
    if referenceClosedAt.Some? && referenceClosedAt.value > cutoff then Err(FutureData)
    else if !config.Valid() then Err(InvalidConfig)
    else if referencePrice <= 0.0 then Err(PriceNotPositive)
    else if BadTick(tick) then Err(TickNotPositive)
    else
      var history := H4History(candles, cutoff, config);
      if history.Err? then Err(history.error)
      else
        var atrs := AtrValues(history.value);
        if atrs == [] || atrs[|atrs| - 1].None? || atrs[|atrs| - 1].value <= 0.0 then Err(AtrUnavailable)
        else
          var zones := ZonesFromHistory(history.value, cutoff, config, TickStep(tick));
          if zones.Err? then Err(zones.error)
          else Ok(Context(referencePrice, referenceClosedAt, cutoff, atrs[|atrs| - 1], zones.value,
                          |history.value|, config, tick))
  }
}
