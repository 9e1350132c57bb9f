/** The marker geometry of the plotter: triangle markers, the tuning
    constants, and the clearance rule that decides how far a marker being
    placed must be raised above a marker that is already placed. */
module Layout {

  /** The way the pointed end of a triangle faces. */
  datatype Direction = Left | Right

  /** The visual settings of an `Output`. Only the ones the layout reads are
      kept; the drawing-only settings (scale, bar height, font size) are not. */
  datatype Config = Config(
    markerHeight: real,
    markerSlope: real,
    tinyGap: real,
    smallGap: real,
    largeGap: real,
    labelSize: real)
  {
    /** Marker height is also the zone width and both are divisors. */
    predicate Valid() {
      markerHeight > 0.0 && markerSlope > 0.0
    }

    /** How far the apex of a marker sits from its flat edge: the marker's
        whole horizontal extent. */
    function ApexOffset(): (w: real)
      requires Valid()
      ensures w > 0.0 && w * 2.0 * markerSlope == markerHeight
    {
      markerHeight / 2.0 / markerSlope
    }
  }

  /** The class-level defaults of `Output`: SmallGap and LargeGap are derived
      from the default marker height. */
  function DefaultConfig(): (c: Config)
    ensures c.Valid()
    ensures c.smallGap == c.markerHeight / 10.0 && c.largeGap == 3.0 * c.markerHeight
  {
    Config(3.0, 1.0, 1.5, 0.3, 9.0, 20.0)
  }

  /** One marker: its flat edge sits at `position` (in Mb), it is
      `markerHeight` tall, and `heightOffset` is how far it has been raised. */
  datatype Triangle = Triangle(
    position: real,
    filled: bool,
    direction: Direction,
    color: string,
    heightOffset: real)

  /** A freshly made triangle starts on the axis. */
  function NewTriangle(position: real, filled: bool, direction: Direction, color: string): (t: Triangle)
    ensures t.heightOffset == 0.0
    ensures t.position == position && t.filled == filled && t.direction == direction && t.color == color
  {
    Triangle(position, filled, direction, color, 0.0)
  }

  function Abs(x: real): real { if x < 0.0 then -x else x }

  /** Horizontal distance from the reference to the marker being placed. */
  function Delta(placing: Triangle, reference: Triangle): real {
    placing.position - reference.position
  }

  /** A LEFT marker placed against a RIGHT reference whose apexes nearly meet:
      the distance between the flat edges is within 30% of the apex offset
      from one apex offset. */
  predicate HeadOn(cfg: Config, placing: Triangle, reference: Triangle)
    requires cfg.Valid()
  {
    reference.direction == Right && placing.direction == Left &&
    Abs(Delta(placing, reference) - cfg.ApexOffset()) < cfg.ApexOffset() * 0.3
  }

  /** The lowest offset at which `placing` clears `reference` from above. */
  function ClearanceHeight(cfg: Config, placing: Triangle, reference: Triangle): real
    requires cfg.Valid()
  {
    var base := reference.heightOffset + cfg.markerHeight - cfg.markerSlope * Delta(placing, reference);
    if HeadOn(cfg, placing, reference) then base + cfg.tinyGap else base
  }

  /** The highest offset at which `placing` stays clear below `reference`. */
  function BelowHeight(cfg: Config, placing: Triangle, reference: Triangle): real
    requires cfg.Valid()
  {
    reference.heightOffset + cfg.markerSlope * Delta(placing, reference) - cfg.largeGap - cfg.markerHeight
  }

  /** Horizontal distance beyond which a rule that raises to the clearance
      height never applies (every case except a RIGHT marker nesting onto a
      LEFT one). */
  function Reach(cfg: Config, referenceDir: Direction, placingDir: Direction): (d: real)
    requires cfg.Valid()
    ensures referenceDir == Right && placingDir == Left ==> d == 2.0 * cfg.ApexOffset() + cfg.smallGap
    ensures !(referenceDir == Right && placingDir == Left) ==> d == cfg.ApexOffset() + cfg.smallGap
  {
    if referenceDir == Right && placingDir == Left then cfg.markerHeight / cfg.markerSlope + cfg.smallGap
    else cfg.markerHeight / 2.0 / cfg.markerSlope + cfg.smallGap
  }

  /** The offset a non-zero clearance lifts `placing` to. It depends on the
      reference and on the placing marker's position and direction, never on
      the placing marker's current offset. */
  function RaiseTarget(cfg: Config, placing: Triangle, reference: Triangle): real
    requires cfg.Valid()
  {
    if reference.direction == Left && placing.direction == Right then
      reference.heightOffset + cfg.markerHeight
    else
      ClearanceHeight(cfg, placing, reference)
  }

  /** The raise target ignores the placing marker's current offset. */
  lemma RaiseTargetIgnoresOffset(cfg: Config, placing: Triangle, reference: Triangle, h: real)
    requires cfg.Valid()
    ensures RaiseTarget(cfg, placing.(heightOffset := h), reference) == RaiseTarget(cfg, placing, reference)
  {
  }

  /** How much higher `placing` must move so as not to collide with the
      already placed `reference`; zero when there is no conflict. */
  function RequiredClearance(cfg: Config, placing: Triangle, reference: Triangle): (r: real)
    requires cfg.Valid()
    ensures r >= 0.0
    ensures r != 0.0 ==> r > 0.0 && placing.heightOffset + r == RaiseTarget(cfg, placing, reference)
  {
    var delta := Delta(placing, reference);
    if reference.direction == Left then
      if placing.direction == Right then
        // apexes converge: nest the marker on top of the reference
        if delta < cfg.smallGap
           && reference.heightOffset - cfg.markerHeight <= placing.heightOffset
           && reference.heightOffset + cfg.markerHeight >= placing.heightOffset
        then reference.heightOffset + cfg.markerHeight - placing.heightOffset
        else 0.0
      else
        // both face left
        if delta > cfg.markerHeight / 2.0 / cfg.markerSlope + cfg.smallGap then 0.0
        else if placing.heightOffset >= ClearanceHeight(cfg, placing, reference) then 0.0
        else if placing.heightOffset <= BelowHeight(cfg, placing, reference) then 0.0
        else ClearanceHeight(cfg, placing, reference) - placing.heightOffset
    else
      // the reference faces right
      if (if placing.direction == Left
          then delta > cfg.markerHeight / cfg.markerSlope + cfg.smallGap
          else delta > cfg.markerHeight / 2.0 / cfg.markerSlope + cfg.smallGap)
      then 0.0
      else if placing.heightOffset >= ClearanceHeight(cfg, placing, reference) then 0.0
      else if placing.heightOffset <= BelowHeight(cfg, placing, reference) then 0.0
      else ClearanceHeight(cfg, placing, reference) - placing.heightOffset
  }

  /** The nesting rule reaches only markers strictly closer than SmallGap. */
  lemma NestingZeroBeyondSmallGap(cfg: Config, placing: Triangle, reference: Triangle)
    requires cfg.Valid()
    requires reference.direction == Left && placing.direction == Right
    requires Delta(placing, reference) >= cfg.smallGap
    ensures RequiredClearance(cfg, placing, reference) == 0.0
  {
  }

  /** Every other rule is silent beyond its horizontal reach. */
  lemma ZeroBeyondReach(cfg: Config, placing: Triangle, reference: Triangle)
    requires cfg.Valid()
    requires !(reference.direction == Left && placing.direction == Right)
    requires Delta(placing, reference) > Reach(cfg, reference.direction, placing.direction)
    ensures RequiredClearance(cfg, placing, reference) == 0.0
  {
  }

  /** A marker at or above the clearance height, or at or below the below
      height, needs no clearance from a reference it does not nest onto. */
  lemma ZeroOutsideConflictBand(cfg: Config, placing: Triangle, reference: Triangle)
    requires cfg.Valid()
    requires !(reference.direction == Left && placing.direction == Right)
    requires placing.heightOffset >= ClearanceHeight(cfg, placing, reference)
          || placing.heightOffset <= BelowHeight(cfg, placing, reference)
    ensures RequiredClearance(cfg, placing, reference) == 0.0
  {
  }

  /** A RIGHT marker more than one marker height away from a LEFT reference,
      above or below, does not nest. */
  lemma NestingZeroOutsideBand(cfg: Config, placing: Triangle, reference: Triangle)
    requires cfg.Valid()
    requires reference.direction == Left && placing.direction == Right
    requires placing.heightOffset < reference.heightOffset - cfg.markerHeight
          || placing.heightOffset > reference.heightOffset + cfg.markerHeight
    ensures RequiredClearance(cfg, placing, reference) == 0.0
  {
  }

  /** Conversely, a marker within reach of a reference it does not nest onto,
      and strictly between the below height and the clearance height, is
      lifted to the clearance height. */
  lemma RaisedWithinReach(cfg: Config, placing: Triangle, reference: Triangle)
    requires cfg.Valid()
    requires !(reference.direction == Left && placing.direction == Right)
    requires Delta(placing, reference) <= Reach(cfg, reference.direction, placing.direction)
    requires BelowHeight(cfg, placing, reference) < placing.heightOffset < ClearanceHeight(cfg, placing, reference)
    ensures RequiredClearance(cfg, placing, reference) == ClearanceHeight(cfg, placing, reference) - placing.heightOffset
    ensures RequiredClearance(cfg, placing, reference) > 0.0
  {
  }

  /** Conversely, a RIGHT marker closer than SmallGap to a LEFT reference and
      within one marker height of it nests exactly on top of it. */
  lemma NestsWithinBand(cfg: Config, placing: Triangle, reference: Triangle)
    requires cfg.Valid()
    requires reference.direction == Left && placing.direction == Right
    requires Delta(placing, reference) < cfg.smallGap
    requires reference.heightOffset - cfg.markerHeight <= placing.heightOffset <= reference.heightOffset + cfg.markerHeight
    ensures RequiredClearance(cfg, placing, reference) == reference.heightOffset + cfg.markerHeight - placing.heightOffset
  {
  }

  /** Applying a clearance settles the conflict: the raised marker needs
      nothing more from the same reference. */
  lemma {:induction false} ClearanceSettles(cfg: Config, placing: Triangle, reference: Triangle)
    requires cfg.Valid()
    ensures var raised := placing.(heightOffset := placing.heightOffset + RequiredClearance(cfg, placing, reference));
            RequiredClearance(cfg, raised, reference) == 0.0
  {
    var c := RequiredClearance(cfg, placing, reference);
    var raised := placing.(heightOffset := placing.heightOffset + c);
    if c != 0.0 {
      assert raised.heightOffset == RaiseTarget(cfg, placing, reference);
      assert ClearanceHeight(cfg, raised, reference) == ClearanceHeight(cfg, placing, reference);
    }
  }

  /** The head-on allowance never applies to markers at the same position. */
  lemma NoTinyGapAtSamePosition(cfg: Config, placing: Triangle, reference: Triangle)
    requires cfg.Valid()
    requires placing.position == reference.position
    ensures !HeadOn(cfg, placing, reference)
    ensures ClearanceHeight(cfg, placing, reference) == reference.heightOffset + cfg.markerHeight
  {
  }

  /** The head-on allowance applies to a LEFT marker after a RIGHT reference
      exactly when it lies strictly between 0.7 and 1.3 apex offsets to the
      right of the reference. */
  lemma HeadOnWindow(cfg: Config, placing: Triangle, reference: Triangle)
    requires cfg.Valid()
    ensures HeadOn(cfg, placing, reference) <==>
              reference.direction == Right && placing.direction == Left &&
              1.3 * cfg.ApexOffset() > Delta(placing, reference) > 0.7 * cfg.ApexOffset()
  {
  }

  /** Two RIGHT markers 0.05 Mb apart with the default settings: the second
      is lifted to 2.95, just under one marker height, and is settled there. */
  lemma ExampleRightRight()
    ensures var cfg := DefaultConfig();
            var first := NewTriangle(0.0, true, Right, "orange");
            var second := NewTriangle(0.05, true, Right, "orange");
            RequiredClearance(cfg, second, first) == 2.95 &&
            RequiredClearance(cfg, second.(heightOffset := 2.95), first) == 0.0
  {
    var cfg := DefaultConfig();
    var first := NewTriangle(0.0, true, Right, "orange");
    var second := NewTriangle(0.05, true, Right, "orange");
    var lifted := second.(heightOffset := 2.95);
    assert cfg.markerHeight / 2.0 / cfg.markerSlope + cfg.smallGap == 1.8;
    assert ClearanceHeight(cfg, second, first) == 2.95;
    assert ClearanceHeight(cfg, lifted, first) == 2.95;
  }

  /** A RIGHT marker 0.05 Mb after a LEFT one nests exactly one marker
      height above it. */
  lemma ExampleNesting()
    ensures var cfg := DefaultConfig();
            var first := NewTriangle(0.0, true, Left, "orange");
            var second := NewTriangle(0.05, true, Right, "orange");
            RequiredClearance(cfg, second, first) == cfg.markerHeight
  {
  }

  /** Markers 50 Mb apart never conflict with the default settings. */
  lemma ExampleFarApart(d1: Direction, d2: Direction)
    ensures var cfg := DefaultConfig();
            RequiredClearance(cfg, NewTriangle(50.0, true, d2, "orange"), NewTriangle(0.0, true, d1, "orange")) == 0.0
  {
  }

  /** The rule is one-sided. Two RIGHT markers at the same position: the
      second is lifted one marker height by the first and is then settled,
      yet the first would demand twice the marker height from the lifted
      one if it were the one being placed. Layout therefore only promises
      that each marker is clear of those placed before it. */
  lemma NotSymmetric(cfg: Config, t: Triangle)
    requires cfg.Valid() && cfg.largeGap > 0.0 && cfg.smallGap >= 0.0
    requires t.direction == Right
    ensures RequiredClearance(cfg, t, t) == cfg.markerHeight
    ensures var lifted := t.(heightOffset := t.heightOffset + cfg.markerHeight);
            RequiredClearance(cfg, lifted, t) == 0.0 &&
            RequiredClearance(cfg, t, lifted) == 2.0 * cfg.markerHeight
  {
    var lifted := t.(heightOffset := t.heightOffset + cfg.markerHeight);
    assert Delta(t, t) == 0.0 && Delta(t, lifted) == 0.0 && Delta(lifted, t) == 0.0;
    assert ClearanceHeight(cfg, t, t) == t.heightOffset + cfg.markerHeight;
    assert ClearanceHeight(cfg, lifted, t) == t.heightOffset + cfg.markerHeight;
    assert ClearanceHeight(cfg, t, lifted) == t.heightOffset + 2.0 * cfg.markerHeight;
    assert BelowHeight(cfg, t, lifted) == t.heightOffset - cfg.largeGap;
  }


}
