/** Placing the markers of one chromosome: the zone index, the fixed-point
    loop that raises each marker until no nearby marker conflicts with it,
    and the bookkeeping of how much vertical room each graph uses. */
module Placement {
  import opened Layout
  import opened Outcomes

  /** Python's `math.ceil` on a real. */
  function Ceil(x: real): (n: int)
    ensures x <= n as real < x + 1.0
  {
    var f := x.Floor;
    if f as real == x then f else f + 1
  }

  lemma MulPositive(a: real, b: real)
    requires a > 0.0 && b > 0.0
    ensures a * b > 0.0
  {
  }

  lemma MulNonnegative(a: real, b: real)
    requires a >= 0.0 && b > 0.0
    ensures a * b >= 0.0
  {
  }

  /** A lower bound on the quotient `q = p / m` scales to one on `p`. */
  lemma ScaleLe(p: real, m: real, q: real, lo: real)
    requires m > 0.0 && q * m == p && lo <= q
    ensures lo * m <= p
  {
    var e := q - lo;
    MulNonnegative(e, m);
    assert e * m == q * m - lo * m;
  }

  /** A strict lower bound on the quotient scales to one on `p`. */
  lemma ScaleLt(p: real, m: real, q: real, lo: real)
    requires m > 0.0 && q * m == p && lo < q
    ensures lo * m < p
  {
    var e := q - lo;
    MulPositive(e, m);
    assert e * m == q * m - lo * m;
  }

  /** A strict upper bound on the quotient scales to one on `p`. */
  lemma ScaleGt(p: real, m: real, q: real, hi: real)
    requires m > 0.0 && q * m == p && q < hi
    ensures p < hi * m
  {
    var d := hi - q;
    MulPositive(d, m);
    assert d * m == hi * m - q * m;
  }

  /** An upper bound on the quotient scales to one on `p`. */
  lemma ScaleGe(p: real, m: real, q: real, hi: real)
    requires m > 0.0 && q * m == p && q <= hi
    ensures p <= hi * m
  {
    var d := hi - q;
    MulNonnegative(d, m);
    assert d * m == hi * m - q * m;
  }

  /** Rounding the quotient `q = p / m` down picks the width-`m` interval
      that holds `p`. */
  lemma FloorScaled(p: real, m: real, q: real, lo: real)
    requires m > 0.0 && q * m == p && lo <= q < lo + 1.0
    ensures lo * m <= p < lo * m + m
  {
    ScaleLe(p, m, q, lo);
    ScaleGt(p, m, q, lo + 1.0);
    assert (lo + 1.0) * m == lo * m + m;
  }

  /** Rounding the quotient `q = p / m` up gives the fewest widths `m` that
      cover `p`. */
  lemma CeilScaled(p: real, m: real, q: real, hi: real)
    requires m > 0.0 && q * m == p && hi - 1.0 < q <= hi
    ensures (hi - 1.0) * m < p <= hi * m
  {
    ScaleLt(p, m, q, hi - 1.0);
    ScaleGe(p, m, q, hi);
  }

  /** The zone a marker is filed under: `position // MarkerHeight`. Markers
      on the axis (position >= 0) get a zone index of 0 or more, the others
      a negative one; ZoneBounds says which interval a zone covers. */
  function ZoneOf(cfg: Config, t: Triangle): (z: int)
    requires cfg.Valid()
    ensures z >= 0 <==> t.position >= 0.0
  {
    (t.position / cfg.markerHeight).Floor
  }

  /** The zone of a marker is the one zone-width interval that holds its
      position. */
  lemma ZoneBounds(cfg: Config, t: Triangle)
    requires cfg.Valid()
    ensures ZoneOf(cfg, t) as real * cfg.markerHeight <= t.position < ZoneOf(cfg, t) as real * cfg.markerHeight + cfg.markerHeight
  {
    FloorScaled(t.position, cfg.markerHeight, t.position / cfg.markerHeight, ZoneOf(cfg, t) as real);
  }

  /** The number of zones made for a chromosome of the given length
      (`range` of a non-positive count is empty): the fewest zones that
      cover the whole length. */
  function ZoneCount(cfg: Config, length: real): (n: nat)
    requires cfg.Valid()
    ensures n as real * cfg.markerHeight >= length
    ensures n > 0 ==> (n - 1) as real * cfg.markerHeight < length
  {
    var c := Ceil(length / cfg.markerHeight);
    CeilScaled(length, cfg.markerHeight, length / cfg.markerHeight, c as real);
    if c > 0 then c else 0
  }

  /** The first zone searched for a marker in zone `z`. */
  function WindowStart(z: int): int {
    if z - 2 > 0 then z - 2 else 0
  }

  /** `reference` lies in the zones searched when `placing` is placed:
      from two zones before the placing marker's zone up to that zone. */
  predicate InWindow(cfg: Config, reference: Triangle, placing: Triangle)
    requires cfg.Valid()
  {
    WindowStart(ZoneOf(cfg, placing)) <= ZoneOf(cfg, reference) <= ZoneOf(cfg, placing)
  }

  /** The marker's zone is a valid index into the zone list. */
  predicate Placeable(cfg: Config, length: real, t: Triangle)
    requires cfg.Valid()
  {
    0 <= ZoneOf(cfg, t) < ZoneCount(cfg, length)
  }

  /** The markers of `s` filed under zone `zone`, in placement order: no
      more markers than `s` has, all of them in that zone (BucketMember
      says it holds every such marker of `s`). */
  function Bucket(cfg: Config, s: seq<Triangle>, zone: int): (b: seq<Triangle>)
    requires cfg.Valid()
    ensures |b| <= |s|
    ensures forall k :: 0 <= k < |b| ==> ZoneOf(cfg, b[k]) == zone
  {
    if s == [] then []
    else
      var last := s[|s| - 1];
      Bucket(cfg, s[..|s| - 1], zone) + (if ZoneOf(cfg, last) == zone then [last] else [])
  }

  /** Concatenation of a list of lists, as `sum(lists, start=[])` does it
      (FlattenMember says which markers it holds). */
  function Flatten(zs: seq<seq<Triangle>>): seq<Triangle>
  {
    if zs == [] then [] else Flatten(zs[..|zs| - 1]) + zs[|zs| - 1]
  }

  /** The concatenation holds exactly the markers of its parts. */
  lemma {:induction false} FlattenMember(zs: seq<seq<Triangle>>, x: Triangle)
    ensures x in Flatten(zs) <==> exists k :: 0 <= k < |zs| && x in zs[k]
  {
    if zs != [] {
      var init := zs[..|zs| - 1];
      FlattenMember(init, x);
      assert forall k :: 0 <= k < |init| ==> init[k] == zs[k];
    }
  }

  /** `placing` needs no clearance from `reference` if it lies in its zone
      window. */
  predicate ClearInWindow(cfg: Config, placing: Triangle, reference: Triangle)
    requires cfg.Valid()
  {
    InWindow(cfg, reference, placing) ==> RequiredClearance(cfg, placing, reference) == 0.0
  }

  /** Every marker clears the markers placed before it in its zone window. */
  predicate WindowSettled(cfg: Config, s: seq<Triangle>)
    requires cfg.Valid()
  {
    forall i, j :: 0 <= j < i < |s| ==> ClearInWindow(cfg, s[i], s[j])
  }

  /** Every marker clears every marker placed before it. */
  predicate Settled(cfg: Config, s: seq<Triangle>)
    requires cfg.Valid()
  {
    forall i, j :: 0 <= j < i < |s| ==> RequiredClearance(cfg, s[i], s[j]) == 0.0
  }

  /** `b` is marker `a`, possibly raised. */
  predicate Raised(a: Triangle, b: Triangle) {
    b == a.(heightOffset := b.heightOffset) && b.heightOffset >= a.heightOffset
  }

  predicate SortedByPosition(s: seq<Triangle>) {
    forall i, j :: 0 <= i < j < |s| ==> s[i].position <= s[j].position
  }

  /** The number of candidates whose raise target is still above `h`: the
      measure that the fixed-point loop decreases. */
  function Pending(cfg: Config, placing: Triangle, candidates: seq<Triangle>, h: real): (n: nat)
    requires cfg.Valid()
    ensures n <= |candidates|
  {
    if candidates == [] then 0
    else
      (if RaiseTarget(cfg, placing, candidates[0]) > h then 1 else 0)
      + Pending(cfg, placing, candidates[1..], h)
  }

  /** Raising the marker never adds pending candidates. */
  lemma {:induction false} PendingAntitone(cfg: Config, placing: Triangle, candidates: seq<Triangle>, lo: real, hi: real)
    requires cfg.Valid() && lo <= hi
    ensures Pending(cfg, placing, candidates, hi) <= Pending(cfg, placing, candidates, lo)
  {
    if candidates != [] {
      PendingAntitone(cfg, placing, candidates[1..], lo, hi);
    }
  }

  /** Raising the marker up to or past a pending target strictly lowers the
      count. */
  lemma {:induction false} PendingDrops(cfg: Config, placing: Triangle, candidates: seq<Triangle>, k: nat, lo: real, hi: real)
    requires cfg.Valid() && k < |candidates|
    requires lo < RaiseTarget(cfg, placing, candidates[k]) <= hi
    ensures Pending(cfg, placing, candidates, hi) < Pending(cfg, placing, candidates, lo)
  {
    if k == 0 {
      PendingAntitone(cfg, placing, candidates[1..], lo, hi);
    } else {
      PendingDrops(cfg, placing, candidates[1..], k - 1, lo, hi);
    }
  }

  /** The `while had_conflict` loop of `add_graph`: passes over the
      candidates, adding each clearance at once, until a pass finds no
      conflict. Returns the settled offset of `t`. */
  method Settle(cfg: Config, t: Triangle, candidates: seq<Triangle>) returns (h: real)
    requires cfg.Valid()
    ensures h >= t.heightOffset
    ensures forall k :: 0 <= k < |candidates| ==>
              RequiredClearance(cfg, t.(heightOffset := h), candidates[k]) == 0.0
    ensures h == t.heightOffset ||
            exists k :: 0 <= k < |candidates| && h == RaiseTarget(cfg, t, candidates[k])
    ensures (forall k :: 0 <= k < |candidates| ==> RequiredClearance(cfg, t, candidates[k]) == 0.0) ==>
              h == t.heightOffset
  {
    h := t.heightOffset;
    var hadConflict := true;
    while hadConflict
      invariant h >= t.heightOffset
      invariant h == t.heightOffset ||
                exists k :: 0 <= k < |candidates| && h == RaiseTarget(cfg, t, candidates[k])
      invariant !hadConflict ==> forall k :: 0 <= k < |candidates| ==>
                  RequiredClearance(cfg, t.(heightOffset := h), candidates[k]) == 0.0
      invariant (forall k :: 0 <= k < |candidates| ==> RequiredClearance(cfg, t, candidates[k]) == 0.0) ==>
                  h == t.heightOffset
      decreases if hadConflict then Pending(cfg, t, candidates, h) + 1 else 0
    {
      ghost var before := h;
      hadConflict := false;
      for j := 0 to |candidates|
        invariant h >= before
        invariant h == t.heightOffset ||
                  exists k :: 0 <= k < |candidates| && h == RaiseTarget(cfg, t, candidates[k])
        invariant hadConflict ==> Pending(cfg, t, candidates, h) < Pending(cfg, t, candidates, before)
        invariant !hadConflict ==> h == before && forall k :: 0 <= k < j ==>
                    RequiredClearance(cfg, t.(heightOffset := h), candidates[k]) == 0.0
        invariant (forall k :: 0 <= k < |candidates| ==> RequiredClearance(cfg, t, candidates[k]) == 0.0) ==>
                    h == t.heightOffset
      {
        var clearance := RequiredClearance(cfg, t.(heightOffset := h), candidates[j]);
        if clearance != 0.0 {
          hadConflict := true;
          RaiseTargetIgnoresOffset(cfg, t, candidates[j], h);
          PendingDrops(cfg, t, candidates, j, before, h + clearance);
        }
        h := h + clearance;
      }
    }
  }

  /** The top edge after one triangle is drawn on a graph whose base is
      `base`, as `_draw_triangle` keeps it. */
  function TopAfter(cfg: Config, base: real, top: real, t: Triangle): (r: real)
    ensures r >= top && r >= base + t.heightOffset + cfg.markerHeight
    ensures r == top || r == base + t.heightOffset + cfg.markerHeight
  {
    if t.heightOffset + cfg.markerHeight + base > top then base + t.heightOffset + cfg.markerHeight else top
  }

  /** The top edge after drawing the triangles of `s` in order, starting
      from `top` (ExtentIsMax says which value that is). */
  function Extent(cfg: Config, base: real, top: real, s: seq<Triangle>): real {
    if s == [] then top
    else TopAfter(cfg, base, Extent(cfg, base, top, s[..|s| - 1]), s[|s| - 1])
  }

  /** The top edge is the maximum of `top` and the top edges of all the
      triangles: at least each of them, and equal to one of them. */
  lemma {:induction false} ExtentIsMax(cfg: Config, base: real, top: real, s: seq<Triangle>)
    ensures Extent(cfg, base, top, s) >= top
    ensures forall k :: 0 <= k < |s| ==> Extent(cfg, base, top, s) >= base + s[k].heightOffset + cfg.markerHeight
    ensures Extent(cfg, base, top, s) == top ||
            exists k :: 0 <= k < |s| && Extent(cfg, base, top, s) == base + s[k].heightOffset + cfg.markerHeight
  {
    if s != [] {
      var init := s[..|s| - 1];
      ExtentIsMax(cfg, base, top, init);
      assert forall k :: 0 <= k < |init| ==> init[k] == s[k];
    }
  }

  /** A zone's bucket holds exactly the placed markers filed under that
      zone. */
  lemma {:induction false} BucketMember(cfg: Config, s: seq<Triangle>, zone: int, x: Triangle)
    requires cfg.Valid()
    ensures x in Bucket(cfg, s, zone) <==> x in s && ZoneOf(cfg, x) == zone
  {
    if s != [] {
      BucketMember(cfg, s[..|s| - 1], zone, x);
      assert s == s[..|s| - 1] + [s[|s| - 1]];
    }
  }

  /** Gathering one more zone adds that zone's markers. */
  lemma FlattenWindowStep(zones: seq<seq<Triangle>>, lo: int, hi: int, x: Triangle)
    requires 0 <= lo < hi <= |zones|
    ensures x in Flatten(zones[lo..hi]) <==> x in Flatten(zones[lo..hi - 1]) || x in zones[hi - 1]
  {
    var window := zones[lo..hi];
    assert window[..hi - 1 - lo] == zones[lo..hi - 1] && window[hi - 1 - lo] == zones[hi - 1];
  }

  /** When a marker sits in no list but the one numbered `zx` (and there only
      if `present`), gathering lists `lo` up to `hi` picks it up exactly when
      `zx` lies in that range. */
  lemma {:induction false} WindowMember(zones: seq<seq<Triangle>>, lo: int, hi: int, x: Triangle, present: bool, zx: int)
    requires 0 <= lo <= hi <= |zones|
    requires forall z :: lo <= z < hi ==> (x in zones[z] <==> present && z == zx)
    ensures x in Flatten(zones[lo..hi]) <==> present && lo <= zx < hi
  {
    if lo < hi {
      FlattenWindowStep(zones, lo, hi, x);
      WindowMember(zones, lo, hi - 1, x, present, zx);
    }
  }

  /** The candidates gathered from zones `lo` up to `hi` are exactly the
      markers of `s` whose zone lies in that range. */
  lemma CandidatesAreWindow(cfg: Config, s: seq<Triangle>, zones: seq<seq<Triangle>>, lo: int, hi: int, x: Triangle)
    requires cfg.Valid()
    requires 0 <= lo <= hi <= |zones|
    requires forall z :: 0 <= z < |zones| ==> zones[z] == Bucket(cfg, s, z)
    ensures x in Flatten(zones[lo..hi]) <==> x in s && lo <= ZoneOf(cfg, x) < hi
  {
    forall z | lo <= z < hi
      ensures x in zones[z] <==> x in s && z == ZoneOf(cfg, x)
    {
      BucketMember(cfg, s, z, x);
    }
    WindowMember(zones, lo, hi, x, x in s, ZoneOf(cfg, x));
  }

  /** Appending a marker that clears its window keeps the layout settled. */
  lemma WindowSettledExtend(cfg: Config, s: seq<Triangle>, p: Triangle)
    requires cfg.Valid()
    requires WindowSettled(cfg, s)
    requires forall j :: 0 <= j < |s| && InWindow(cfg, s[j], p) ==> RequiredClearance(cfg, p, s[j]) == 0.0
    ensures WindowSettled(cfg, s + [p])
  {
    var t := s + [p];
    forall i, j | 0 <= j < i < |t| && InWindow(cfg, t[j], t[i])
      ensures RequiredClearance(cfg, t[i], t[j]) == 0.0
    {
      if i < |s| {
        assert t[i] == s[i] && t[j] == s[j];
      } else {
        assert t[i] == p && t[j] == s[j];
      }
    }
  }

  /** Each marker of `s` is the marker at the same index of `orig`, possibly
      raised. */
  predicate RaisedFrom(orig: seq<Triangle>, s: seq<Triangle>) {
    |s| <= |orig| && forall k :: 0 <= k < |s| ==> Raised(orig[k], s[k])
  }

  /** Marker `k` of `s` was either left where it was or lifted exactly to
      the raise target of an earlier marker in its window. */
  predicate JustifiedAt(cfg: Config, orig: seq<Triangle>, s: seq<Triangle>, k: int)
    requires cfg.Valid() && 0 <= k < |s| <= |orig|
  {
    s[k] == orig[k] ||
    exists j :: 0 <= j < k && InWindow(cfg, s[j], s[k]) && s[k].heightOffset == RaiseTarget(cfg, s[k], s[j])
  }

  /** Every marker of `s` is justified. */
  predicate Justified(cfg: Config, orig: seq<Triangle>, s: seq<Triangle>)
    requires cfg.Valid()
  {
    |s| <= |orig| && forall k :: 0 <= k < |s| ==> JustifiedAt(cfg, orig, s, k)
  }

  /** Appending a justified marker keeps the earlier ones justified. */
  lemma JustifiedExtend(cfg: Config, orig: seq<Triangle>, prefix: seq<Triangle>, x: Triangle)
    requires cfg.Valid() && |prefix| < |orig|
    requires Justified(cfg, orig, prefix)
    requires JustifiedAt(cfg, orig, prefix + [x], |prefix|)
    ensures Justified(cfg, orig, prefix + [x])
  {
    var s := prefix + [x];
    forall k | 0 <= k < |prefix|
      ensures JustifiedAt(cfg, orig, s, k)
    {
      assert JustifiedAt(cfg, orig, prefix, k);
      assert s[k] == prefix[k];
      if s[k] != orig[k] {
        var j :| 0 <= j < k && InWindow(cfg, prefix[j], prefix[k]) && prefix[k].heightOffset == RaiseTarget(cfg, prefix[k], prefix[j]);
        assert s[j] == prefix[j];
      }
    }
  }

  /** The zone buckets stay in step when the placed marker is filed. */
  lemma {:induction false} BucketsAfterFiling(cfg: Config, prefix: seq<Triangle>, zones: seq<seq<Triangle>>, placed: Triangle)
    requires cfg.Valid()
    requires 0 <= ZoneOf(cfg, placed) < |zones|
    requires forall z :: 0 <= z < |zones| ==> zones[z] == Bucket(cfg, prefix, z)
    ensures var z := ZoneOf(cfg, placed);
            forall z' :: 0 <= z' < |zones| ==> zones[z := zones[z] + [placed]][z'] == Bucket(cfg, prefix + [placed], z')
  {
    var s := prefix + [placed];
    assert s[..|s| - 1] == prefix;
  }

  /** The settled marker clears every earlier marker in its window, because
      those are exactly the candidates it was settled against. */
  lemma StepSettled(cfg: Config, prefix: seq<Triangle>, zones: seq<seq<Triangle>>, candidates: seq<Triangle>, placed: Triangle)
    requires cfg.Valid()
    requires 0 <= ZoneOf(cfg, placed) < |zones|
    requires forall z :: 0 <= z < |zones| ==> zones[z] == Bucket(cfg, prefix, z)
    requires candidates == Flatten(zones[WindowStart(ZoneOf(cfg, placed))..ZoneOf(cfg, placed) + 1])
    requires forall k :: 0 <= k < |candidates| ==> RequiredClearance(cfg, placed, candidates[k]) == 0.0
    requires WindowSettled(cfg, prefix)
    ensures WindowSettled(cfg, prefix + [placed])
  {
    var z := ZoneOf(cfg, placed);
    forall j | 0 <= j < |prefix| && InWindow(cfg, prefix[j], placed)
      ensures RequiredClearance(cfg, placed, prefix[j]) == 0.0
    {
      assert prefix[j] in prefix;
      CandidatesAreWindow(cfg, prefix, zones, WindowStart(z), z + 1, prefix[j]);
      assert prefix[j] in candidates;
      var k :| 0 <= k < |candidates| && candidates[k] == prefix[j];
    }
    WindowSettledExtend(cfg, prefix, placed);
  }

  /** The settled marker's offset is its own or the raise target of an
      earlier marker in its window. */
  lemma StepJustified(cfg: Config, orig: seq<Triangle>, prefix: seq<Triangle>, zones: seq<seq<Triangle>>,
                      candidates: seq<Triangle>, h: real)
    requires cfg.Valid()
    requires |prefix| < |orig|
    requires 0 <= ZoneOf(cfg, orig[|prefix|]) < |zones|
    requires forall z :: 0 <= z < |zones| ==> zones[z] == Bucket(cfg, prefix, z)
    requires candidates == Flatten(zones[WindowStart(ZoneOf(cfg, orig[|prefix|]))..ZoneOf(cfg, orig[|prefix|]) + 1])
    requires Justified(cfg, orig, prefix)
    requires var t := orig[|prefix|];
             h == t.heightOffset || exists k :: 0 <= k < |candidates| && h == RaiseTarget(cfg, t, candidates[k])
    ensures Justified(cfg, orig, prefix + [orig[|prefix|].(heightOffset := h)])
  {
    var t := orig[|prefix|];
    var z := ZoneOf(cfg, t);
    var placed := t.(heightOffset := h);
    if h != t.heightOffset {
      var c :| 0 <= c < |candidates| && h == RaiseTarget(cfg, t, candidates[c]);
      assert candidates[c] in candidates;
      CandidatesAreWindow(cfg, prefix, zones, WindowStart(z), z + 1, candidates[c]);
      assert candidates[c] in prefix;
      var j :| 0 <= j < |prefix| && prefix[j] == candidates[c];
      JustifiedByRaise(cfg, orig, prefix, j, h);
    } else {
      assert placed == orig[|prefix|];
    }
    JustifiedExtend(cfg, orig, prefix, placed);
  }

  /** A marker lifted to the raise target of an earlier marker in its
      window is justified. */
  lemma JustifiedByRaise(cfg: Config, orig: seq<Triangle>, prefix: seq<Triangle>, j: int, h: real)
    requires cfg.Valid() && 0 <= j < |prefix| < |orig|
    requires InWindow(cfg, prefix[j], orig[|prefix|])
    requires h == RaiseTarget(cfg, orig[|prefix|], prefix[j])
    ensures JustifiedAt(cfg, orig, prefix + [orig[|prefix|].(heightOffset := h)], |prefix|)
  {
    var t := orig[|prefix|];
    var placed := t.(heightOffset := h);
    var s := prefix + [placed];
    RaiseTargetIgnoresOffset(cfg, t, prefix[j], h);
    assert s[j] == prefix[j] && s[|prefix|] == placed;
    assert InWindow(cfg, s[j], s[|prefix|]);
  }

  /** When the original layout is already settled and nothing has moved,
      the next marker demands nothing from any of its candidates. */
  lemma StepIdle(cfg: Config, orig: seq<Triangle>, prefix: seq<Triangle>, zones: seq<seq<Triangle>>,
                 candidates: seq<Triangle>)
    requires cfg.Valid()
    requires |prefix| < |orig| && prefix == orig[..|prefix|]
    requires WindowSettled(cfg, orig)
    requires 0 <= ZoneOf(cfg, orig[|prefix|]) < |zones|
    requires forall z :: 0 <= z < |zones| ==> zones[z] == Bucket(cfg, prefix, z)
    requires candidates == Flatten(zones[WindowStart(ZoneOf(cfg, orig[|prefix|]))..ZoneOf(cfg, orig[|prefix|]) + 1])
    ensures forall k :: 0 <= k < |candidates| ==> RequiredClearance(cfg, orig[|prefix|], candidates[k]) == 0.0
  {
    var t := orig[|prefix|];
    var z := ZoneOf(cfg, t);
    forall k | 0 <= k < |candidates|
      ensures RequiredClearance(cfg, t, candidates[k]) == 0.0
    {
      assert candidates[k] in candidates;
      CandidatesAreWindow(cfg, prefix, zones, WindowStart(z), z + 1, candidates[k]);
      assert candidates[k] in prefix;
      var j :| 0 <= j < |prefix| && prefix[j] == candidates[k];
      assert orig[j] == candidates[k];
      assert InWindow(cfg, orig[j], t);
      assert ClearInWindow(cfg, orig[|prefix|], orig[j]);
    }
  }

  /** One iteration of the placement loop, on values: filing keeps the zone
      buckets in step, and a layout that was already settled is left as it
      was. */
  lemma FileStep(cfg: Config, orig: seq<Triangle>, prefix: seq<Triangle>, zones: seq<seq<Triangle>>,
                 candidates: seq<Triangle>, h: real)
    requires cfg.Valid()
    requires |prefix| < |orig|
    requires 0 <= ZoneOf(cfg, orig[|prefix|]) < |zones|
    requires forall z :: 0 <= z < |zones| ==> zones[z] == Bucket(cfg, prefix, z)
    requires candidates == Flatten(zones[WindowStart(ZoneOf(cfg, orig[|prefix|]))..ZoneOf(cfg, orig[|prefix|]) + 1])
    requires WindowSettled(cfg, orig) ==> prefix == orig[..|prefix|]
    requires var t := orig[|prefix|];
             (forall k :: 0 <= k < |candidates| ==> RequiredClearance(cfg, t, candidates[k]) == 0.0) ==> h == t.heightOffset
    ensures var placed := orig[|prefix|].(heightOffset := h);
            var z := ZoneOf(cfg, placed);
            z == ZoneOf(cfg, orig[|prefix|]) &&
            (WindowSettled(cfg, orig) ==> prefix + [placed] == orig[..|prefix| + 1]) &&
            forall z' :: 0 <= z' < |zones| ==> zones[z := zones[z] + [placed]][z'] == Bucket(cfg, prefix + [placed], z')
  {
    var placed := orig[|prefix|].(heightOffset := h);
    if WindowSettled(cfg, orig) {
      StepIdle(cfg, orig, prefix, zones, candidates);
      FileIdle(cfg, orig, prefix, candidates, h);
    }
    BucketsAfterFiling(cfg, prefix, zones, placed);
  }

  /** A marker that no candidate pushes is filed unchanged. */
  lemma FileIdle(cfg: Config, orig: seq<Triangle>, prefix: seq<Triangle>, candidates: seq<Triangle>, h: real)
    requires cfg.Valid()
    requires |prefix| < |orig| && prefix == orig[..|prefix|]
    requires forall k :: 0 <= k < |candidates| ==> RequiredClearance(cfg, orig[|prefix|], candidates[k]) == 0.0
    requires var t := orig[|prefix|];
             (forall k :: 0 <= k < |candidates| ==> RequiredClearance(cfg, t, candidates[k]) == 0.0) ==> h == t.heightOffset
    ensures prefix + [orig[|prefix|].(heightOffset := h)] == orig[..|prefix| + 1]
  {
    assert orig[..|prefix| + 1] == orig[..|prefix|] + [orig[|prefix|]];
  }

  /** Markers further along the axis are never in an earlier zone. */
  lemma ZoneMonotone(cfg: Config, a: Triangle, b: Triangle)
    requires cfg.Valid() && a.position <= b.position
    ensures ZoneOf(cfg, a) <= ZoneOf(cfg, b)
  {
    var m := cfg.markerHeight;
    var xa := a.position / m;
    var xb := b.position / m;
    assert xa * m == a.position && xb * m == b.position;
    assert (xb - xa) * m == b.position - a.position;
    assert xa <= xb;
    assert xa.Floor as real <= xa && xb < xb.Floor as real + 1.0;
  }

  /** A marker on the chromosome (0 <= position < length) has a valid zone. */
  lemma OnChromosomeIsPlaceable(cfg: Config, length: real, t: Triangle)
    requires cfg.Valid() && 0.0 <= t.position < length
    ensures Placeable(cfg, length, t)
  {
    ZoneBounds(cfg, t);
    var z := ZoneOf(cfg, t);
    var n := Ceil(length / cfg.markerHeight);
    assert length / cfg.markerHeight * cfg.markerHeight == length;
    if n <= z {
      assert (n as real - length / cfg.markerHeight) * cfg.markerHeight >= 0.0;
      assert n as real * cfg.markerHeight >= length;
      assert z as real * cfg.markerHeight >= n as real * cfg.markerHeight;
    }
  }

  /** The widest rule (a LEFT marker after a RIGHT reference reaches two
      marker widths, MarkerHeight/MarkerSlope, plus SmallGap) stays within
      two zone widths. */
  predicate WindowCoversReach(cfg: Config)
    requires cfg.Valid()
  {
    cfg.markerHeight / cfg.markerSlope + cfg.smallGap <= 2.0 * cfg.markerHeight
  }

  /** The default settings satisfy it: 3 + 0.3 <= 6. */
  lemma DefaultWindowCoversReach()
    ensures WindowCoversReach(DefaultConfig())
  {
  }

  /** A reference three or more zones back is out of every rule's reach. */
  lemma FarZoneNoConflict(cfg: Config, placing: Triangle, reference: Triangle)
    requires cfg.Valid() && WindowCoversReach(cfg)
    requires ZoneOf(cfg, reference) + 3 <= ZoneOf(cfg, placing)
    ensures RequiredClearance(cfg, placing, reference) == 0.0
  {
    ZoneBounds(cfg, placing);
    ZoneBounds(cfg, reference);
    var m := cfg.markerHeight;
    var zp := ZoneOf(cfg, placing) as real;
    var zr := ZoneOf(cfg, reference) as real;
    assert zp * m <= placing.position && reference.position < zr * m + m;
    var e := zp - zr - 3.0;
    assert e >= 0.0;
    assert e * m >= 0.0;
    assert e * m == zp * m - zr * m - 3.0 * m;
    assert Delta(placing, reference) > 2.0 * m;
    if reference.direction == Left && placing.direction == Right {
      NestingZeroBeyondSmallGap(cfg, placing, reference);
    } else {
      var w := cfg.ApexOffset();
      assert cfg.markerHeight / cfg.markerSlope * cfg.markerSlope == 2.0 * w * cfg.markerSlope;
      assert cfg.markerHeight / cfg.markerSlope == 2.0 * w;
      assert Reach(cfg, reference.direction, placing.direction) <= cfg.markerHeight / cfg.markerSlope + cfg.smallGap;
      ZeroBeyondReach(cfg, placing, reference);
    }
  }

  /** The zone window has no false negatives: for markers placed in
      position order, clearing the window clears every earlier marker,
      provided every rule's reach fits in two zones. */
  lemma WindowSuffices(cfg: Config, s: seq<Triangle>)
    requires cfg.Valid() && WindowCoversReach(cfg)
    requires SortedByPosition(s)
    requires forall k :: 0 <= k < |s| ==> 0 <= ZoneOf(cfg, s[k])
    requires WindowSettled(cfg, s)
    ensures Settled(cfg, s)
  {
    forall i, j | 0 <= j < i < |s|
      ensures RequiredClearance(cfg, s[i], s[j]) == 0.0
    {
      ZoneMonotone(cfg, s[j], s[i]);
      if !InWindow(cfg, s[j], s[i]) {
        FarZoneNoConflict(cfg, s[i], s[j]);
      }
    }
  }

  /** The body of the `for triangle` loop of `add_graph`, without the
      drawing: gather the candidates from the zone window, settle the
      triangle against them, and file it under its zone. `orig` is the
      graph's list as it was before layout and `prefix` the part of it
      already placed. */
  method PlaceOne(cfg: Config, ghost orig: seq<Triangle>, ghost prefix: seq<Triangle>,
                  zones: seq<seq<Triangle>>, t: Triangle)
    returns (placed: Triangle, filed: seq<seq<Triangle>>)
    requires cfg.Valid()
    requires |prefix| < |orig| && t == orig[|prefix|]
    requires 0 <= ZoneOf(cfg, t) < |zones|
    requires forall z :: 0 <= z < |zones| ==> zones[z] == Bucket(cfg, prefix, z)
    requires WindowSettled(cfg, prefix) && RaisedFrom(orig, prefix) && Justified(cfg, orig, prefix)
    requires WindowSettled(cfg, orig) ==> prefix == orig[..|prefix|]
    ensures WindowSettled(cfg, prefix + [placed]) && RaisedFrom(orig, prefix + [placed])
    ensures Justified(cfg, orig, prefix + [placed])
    ensures WindowSettled(cfg, orig) ==> prefix + [placed] == orig[..|prefix| + 1]
    ensures |filed| == |zones| && forall z :: 0 <= z < |filed| ==> filed[z] == Bucket(cfg, prefix + [placed], z)
  {
    var z := ZoneOf(cfg, t);
    var candidates := Flatten(zones[WindowStart(z)..z + 1]);
    var h := Settle(cfg, t, candidates);
    placed := t.(heightOffset := h);
    StepSettled(cfg, prefix, zones, candidates, placed);
    StepJustified(cfg, orig, prefix, zones, candidates, h);
    FileStep(cfg, orig, prefix, zones, candidates, h);
    assert RaisedFrom(orig, prefix + [placed]);
    filed := zones[z := zones[z] + [placed]];
  }

  /** The base after drawing the marker lists of `laid` one above the
      other, starting from `base`: each graph starts `labelSize` above the
      top edge of the one before it. */
  function Stacked(cfg: Config, base: real, laid: seq<seq<Triangle>>): real {
    if laid == [] then base
    else
      var below := Stacked(cfg, base, laid[..|laid| - 1]);
      Extent(cfg, below, below, laid[|laid| - 1]) + cfg.labelSize
  }

  /** Stacking one more graph starts it where the previous ones end. */
  lemma StackedSnoc(cfg: Config, base: real, laid: seq<seq<Triangle>>, drawn: seq<Triangle>)
    ensures Stacked(cfg, base, laid + [drawn]) ==
              Extent(cfg, Stacked(cfg, base, laid), Stacked(cfg, base, laid), drawn) + cfg.labelSize
  {
    assert (laid + [drawn])[..|laid|] == laid;
  }

  /** The graph drawn after graph `k` starts above every marker of graph
      `k`, and its label. */
  lemma StackedClears(cfg: Config, base: real, laid: seq<seq<Triangle>>, k: int, m: int)
    requires 0 <= k < |laid| && 0 <= m < |laid[k]|
    ensures Stacked(cfg, base, laid[..k + 1]) >=
              Stacked(cfg, base, laid[..k]) + laid[k][m].heightOffset + cfg.markerHeight + cfg.labelSize
  {
    assert laid[..k + 1][..k] == laid[..k];
    var below := Stacked(cfg, base, laid[..k]);
    ExtentIsMax(cfg, below, below, laid[k]);
  }

  /** A chromosome's triangles, with its length and centromere. */
  class Graph {
    const triangles: array<Triangle>
    const plength: real
    const qlength: real
    const length: real
    const name: Option<string>

    constructor (triangles: array<Triangle>, length: real, centromere: real, name: Option<string>)
      ensures this.triangles == triangles && this.length == length && this.name == name
      ensures plength == centromere && qlength == length - centromere
    {
      this.triangles := triangles;
      this.plength := centromere;
      this.qlength := length - centromere;
      this.length := length;
      this.name := name;
    }
  }

  /** The plot: graphs are stacked from the bottom up, each starting
      `labelSize` above the top edge of the previous one. */
  class Output {
    const cfg: Config
    var graphOffset: real
    var thisOffset: real
    var graphs: seq<Graph>

    /** Between calls the running top edge is the next graph's base. */
    ghost predicate Valid()
      reads this
    {
      cfg.Valid() && thisOffset == graphOffset
    }

    constructor (cfg: Config)
      requires cfg.Valid()
      ensures Valid() && this.cfg == cfg
      ensures graphOffset == 0.0 && graphs == []
    {
      this.cfg := cfg;
      graphOffset := 0.0;
      thisOffset := 0.0;
      graphs := [];
    }

    /** The extent bookkeeping of `_draw_triangle`. */
    method DrawTriangle(t: Triangle)
      modifies this`thisOffset
      ensures thisOffset == TopAfter(cfg, graphOffset, old(thisOffset), t)
    {
      if t.heightOffset + cfg.markerHeight + graphOffset > thisOffset {
        thisOffset := graphOffset + t.heightOffset + cfg.markerHeight;
      }
    }

    /** The state of the layout loop of `add_graph` after the first `i`
        markers of `a` (originally `orig`): those markers are settled,
        raised from and justified against `orig` and filed in `zones`; the
        rest are untouched; the drawn extent covers exactly the first `i`. */
    ghost predicate Laid(a: array<Triangle>, orig: seq<Triangle>, i: int, zones: seq<seq<Triangle>>, top: real)
      reads this, a
    {
      cfg.Valid() && a.Length == |orig| && 0 <= i <= a.Length &&
      (forall z :: 0 <= z < |zones| ==> zones[z] == Bucket(cfg, a[..i], z)) &&
      a[i..] == orig[i..] &&
      WindowSettled(cfg, a[..i]) && RaisedFrom(orig, a[..i]) && Justified(cfg, orig, a[..i]) &&
      thisOffset == Extent(cfg, graphOffset, top, a[..i]) &&
      (WindowSettled(cfg, orig) ==> a[..i] == orig[..i])
    }

    /** One round of the layout loop: settle marker `i`, write it back and
        draw it. */
    method PlaceNext(a: array<Triangle>, ghost orig: seq<Triangle>, i: int, zones: seq<seq<Triangle>>, ghost top: real)
      returns (filed: seq<seq<Triangle>>)
      requires Laid(a, orig, i, zones, top) && i < a.Length
      requires 0 <= ZoneOf(cfg, orig[i]) < |zones|
      modifies this`thisOffset, a
      ensures Laid(a, orig, i + 1, filed, top) && |filed| == |zones|
    {
      var t := a[i];
      assert t == orig[i] by { assert a[i..][0] == orig[i..][0]; }
      ghost var prefix := a[..i];
      ghost var rest := a[i..];
      var placed;
      placed, filed := PlaceOne(cfg, orig, prefix, zones, t);
      a[i] := placed;
      assert a[..i + 1] == prefix + [placed];
      assert a[i + 1..] == rest[1..];
      assert (prefix + [placed])[..i] == prefix;
      DrawTriangle(placed);
    }

    /** The layout loop of `add_graph`: settles and draws the markers of
        `a` in list order. */
    method LayOut(a: array<Triangle>, length: real) returns (zones: seq<seq<Triangle>>)
      requires cfg.Valid()
      requires forall k :: 0 <= k < a.Length ==> Placeable(cfg, length, a[k])
      modifies this`thisOffset, a
      ensures Laid(a, old(a[..]), a.Length, zones, old(thisOffset))
    {
      ghost var orig := a[..];
      var n := ZoneCount(cfg, length);
      zones := seq(n, _ => []);
      var i := 0;
      assert a[..0] == [];
      while i < a.Length
        invariant 0 <= i <= a.Length && |zones| == n
        invariant Laid(a, orig, i, zones, old(thisOffset))
      {
        assert Placeable(cfg, length, orig[i]);
        zones := PlaceNext(a, orig, i, zones, old(thisOffset));
        i := i + 1;
      }
    }

    /** Lays out the triangles of `graph` in list order, raising each until
      it clears the markers already placed in its zone window, then moves
      the base up past the graph and its label. */
    method AddGraph(graph: Graph)
      requires Valid()
      requires forall k :: 0 <= k < graph.triangles.Length ==> Placeable(cfg, graph.length, graph.triangles[k])
      modifies this, graph.triangles
      ensures Valid() && graphs == old(graphs) + [graph]
      ensures graphOffset == Extent(cfg, old(graphOffset), old(graphOffset), graph.triangles[..]) + cfg.labelSize
      ensures graph.triangles.Length == 0 ==> graphOffset == old(graphOffset) + cfg.labelSize
      ensures forall k :: 0 <= k < graph.triangles.Length ==>
                graphOffset >= old(graphOffset) + graph.triangles[k].heightOffset + cfg.markerHeight + cfg.labelSize
      ensures RaisedFrom(old(graph.triangles[..]), graph.triangles[..])
      ensures WindowSettled(cfg, graph.triangles[..])
      ensures Justified(cfg, old(graph.triangles[..]), graph.triangles[..])
      ensures WindowSettled(cfg, old(graph.triangles[..])) ==> graph.triangles[..] == old(graph.triangles[..])
    {
      var a := graph.triangles;
      var zones := LayOut(a, graph.length);
      assert a[..a.Length] == a[..];
      ExtentIsMax(cfg, graphOffset, graphOffset, a[..]);
      graphOffset := thisOffset + cfg.labelSize;
      thisOffset := graphOffset;
      graphs := graphs + [graph];
    }
  }
}
