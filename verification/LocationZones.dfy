/**
 The geometry of zones: snapped to the tick grid a zone only grows outwards, by less than one tick on each
 side, so it always covers the swing level and the branch that widens an empty zone is never taken.
 */
module LocationZones {
  import opened Common
  import opened LocationModel
  import opened Grid

  /** A zone's bounds around a level: they cover the level's band and, with a tick, are the tightest on the grid. */
  lemma SnappedBoundsMeaning(level: real, halfWidth: real, tick: Option<GridStep>)
    requires halfWidth > 0.0
    ensures var bounds := ZoneBounds(level, halfWidth, tick);
            && bounds.0 <= level - halfWidth && level + halfWidth <= bounds.1
            && (tick.None? ==> bounds == (level - halfWidth, level + halfWidth))
            && (tick.Some? ==>
                  && OnGrid(bounds.0, tick.value) && OnGrid(bounds.1, tick.value)
                  && level - halfWidth < bounds.0 + tick.value && bounds.1 - tick.value < level + halfWidth)
  {
    if tick.Some? {
      hide FloorTo, CeilTo;
      FloorToIsGreatest(level - halfWidth, tick.value);
      CeilToIsLeast(level + halfWidth, tick.value);
    }
  }

  /** The source's guard against an empty snapped zone is dead code: snapping never empties a zone. */
  lemma SnappingNeverEmpties(level: real, halfWidth: real, tick: GridStep)
    requires halfWidth > 0.0
    ensures FloorTo(level - halfWidth, tick) < CeilTo(level + halfWidth, tick)
  {
    hide FloorTo, CeilTo;
    FloorToIsGreatest(level - halfWidth, tick);
    CeilToIsLeast(level + halfWidth, tick);
  }

  lemma HalfWidthIsPositive(config: Config, atr: real)
    requires config.Valid() && atr > 0.0
    ensures HalfWidth(config, atr) > 0.0
  {
  }

  /** A built zone covers its swing level with half a zone to spare, is no wider than allowed, and starts out active. */
  lemma MadeZoneMeaning(swing: Swing, index: map<int, nat>, atrs: seq<Option<real>>, config: Config,
                        tick: Option<GridStep>)
    requires config.Valid() && BuildZone(swing, index, atrs, config, tick).Made?
    ensures var z := BuildZone(swing, index, atrs, config, tick).zone;
            && z.id == swing.id && z.role == swing.role && z.status == Active
            && z.formedAt == swing.formedAt && z.confirmedAt == swing.confirmedAt
            && FormationAtr(swing, index, atrs) == Some(z.formationAtr) && z.formationAtr > 0.0
            && 0.0 < z.low <= swing.level - HalfWidth(config, z.formationAtr)
            && swing.level + HalfWidth(config, z.formationAtr) <= z.high
            && z.high - z.low <= WidthLimit(config, z.formationAtr)
            && (tick.Some? ==> OnGrid(z.low, tick.value) && OnGrid(z.high, tick.value))
  {
    hide ZoneBounds, HalfWidth, WidthLimit, FormationAtr, OnGrid;
    var atr := FormationAtr(swing, index, atrs).value;
    HalfWidthIsPositive(config, atr);
    SnappedBoundsMeaning(swing.level, HalfWidth(config, atr), tick);
  }

  /** Without a tick, the width check depends on the configuration alone: it passes every zone or none. */
  lemma UntickedWidthIsAConfigQuestion(swing: Swing, atr: real, config: Config)
    requires config.Valid() && atr > 0.0
    ensures SizedZone(swing, Some(atr), config, None).Skipped? <==> 2.0 * config.zoneHalfWidthAtr > config.zoneMaxWidthAtr
  {
    var h, w := config.zoneHalfWidthAtr, config.zoneMaxWidthAtr;
    MulStrict(w, 2.0 * h, atr);
    Twice(h, atr);
    hide FloorTo, CeilTo;
    assert WidthLimit(config, atr) == w * atr;
    assert HalfWidth(config, atr) == h * atr;
    hide HalfWidth, WidthLimit;
    var bounds := ZoneBounds(swing.level, HalfWidth(config, atr), None);
    assert bounds.1 - bounds.0 == 2.0 * HalfWidth(config, atr);
  }

  lemma Twice(h: real, atr: real)
    ensures 2.0 * h * atr == 2.0 * (h * atr)
  {
  }
}
