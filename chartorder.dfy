/** How the driver hands its charts to the plotter: chromosomes in
    descending name order, and each chromosome's markers sorted by position,
    in place and stably, before the chart is laid out. */
module ChartOrder {
  import opened Outcomes
  import opened Layout
  import opened Placement
  import Features

  // ---------------------------------------------------------------------
  // Chromosome names

  /** Python's `<` on strings: code point by code point, a proper prefix
      first. */
  predicate LexLess(a: string, b: string)
    decreases |a|
  {
    if a == [] then b != []
    else if b == [] then false
    else if a[0] != b[0] then a[0] < b[0]
    else LexLess(a[1..], b[1..])
  }

  /** `a` and `b` agree before index `k`, where `a` has the smaller code
      point. */
  predicate SmallerAt(a: string, b: string, k: int) {
    0 <= k < |a| && k < |b| && a[..k] == b[..k] && a[k] < b[k]
  }

  /** The order stated directly: `a` comes first when it is a proper prefix
      of `b`, or when it has the smaller code point where they first
      differ. */
  lemma {:induction false} LexFirstDifference(a: string, b: string)
    ensures LexLess(a, b) <==> (|a| < |b| && a == b[..|a|]) || exists k :: SmallerAt(a, b, k)
  {
    if a == [] {
      assert |a| < |b| ==> a == b[..|a|];
    } else if b == [] {
    } else if a[0] != b[0] {
      if |a| < |b| {
        assert b[..|a|][0] == b[0];
      }
      if a[0] < b[0] {
        assert a[..0] == b[..0];
        assert SmallerAt(a, b, 0);
      }
    } else {
      var a', b' := a[1..], b[1..];
      LexFirstDifference(a', b');
      if |a| < |b| && a == b[..|a|] {
        assert a' == b'[..|a'|];
      }
      if |a'| < |b'| && a' == b'[..|a'|] {
        assert a == [a[0]] + a' && b[..|a|] == [b[0]] + b'[..|a'|];
      }
      if exists k :: SmallerAt(a, b, k) {
        var k :| SmallerAt(a, b, k);
        if k == 0 {
          assert false;
        }
        assert a'[..k - 1] == a[1..k] && b'[..k - 1] == b[1..k];
        assert a[1..k] == a[..k][1..] && b[1..k] == b[..k][1..];
        assert SmallerAt(a', b', k - 1);
      }
      if exists k :: SmallerAt(a', b', k) {
        var k :| SmallerAt(a', b', k);
        assert a[..k + 1] == [a[0]] + a'[..k] && b[..k + 1] == [b[0]] + b'[..k];
        assert SmallerAt(a, b, k + 1);
      }
    }
  }

  lemma {:induction false} LexIrreflexive(a: string)
    ensures !LexLess(a, a)
  {
    if a != [] {
      LexIrreflexive(a[1..]);
    }
  }

  lemma {:induction false} LexAsymmetric(a: string, b: string)
    ensures !(LexLess(a, b) && LexLess(b, a))
  {
    if a != [] && b != [] && a[0] == b[0] {
      LexAsymmetric(a[1..], b[1..]);
    }
  }

  lemma {:induction false} LexTransitive(a: string, b: string, c: string)
    requires LexLess(a, b) && LexLess(b, c)
    ensures LexLess(a, c)
  {
    if a != [] && a[0] == b[0] && b[0] == c[0] {
      LexTransitive(a[1..], b[1..], c[1..]);
    }
  }

  /** Any two different names are ordered one way or the other. */
  lemma {:induction false} LexTotal(a: string, b: string)
    ensures a == b || LexLess(a, b) || LexLess(b, a)
  {
    if a != [] && b != [] && a[0] == b[0] {
      LexTotal(a[1..], b[1..]);
      if a[1..] == b[1..] {
        assert a == [a[0]] + a[1..] && b == [b[0]] + b[1..];
      }
    }
  }

  predicate Ascending(names: seq<string>) {
    forall i, j :: 0 <= i < j < |names| ==> LexLess(names[i], names[j])
  }

  predicate Descending(names: seq<string>) {
    forall i, j :: 0 <= i < j < |names| ==> LexLess(names[j], names[i])
  }

  /** `x` put into its place in an ascending list of names. */
  function InsertName(names: seq<string>, x: string): (r: seq<string>)
    requires Ascending(names) && x !in names
    ensures Ascending(r) && |r| == |names| + 1
    ensures forall y :: y in r <==> y in names || y == x
  {
    if names == [] then [x]
    else if LexLess(x, names[0]) then
      assert forall k :: 0 < k < |names| ==> LexLess(x, names[k]) by {
        forall k | 0 < k < |names| ensures LexLess(x, names[k]) {
          LexTransitive(x, names[0], names[k]);
        }
      }
      [x] + names
    else
      LexTotal(x, names[0]);
      var rest := InsertName(names[1..], x);
      assert forall k :: 0 <= k < |rest| ==> rest[k] in names[1..] || rest[k] == x;
      [names[0]] + rest
  }

  function Reverse(s: seq<string>): (r: seq<string>)
    ensures |r| == |s| && forall k :: 0 <= k < |s| ==> r[k] == s[|s| - 1 - k]
    ensures forall x :: x in r <==> x in s
  {
    if s == [] then [] else Reverse(s[1..]) + [s[0]]
  }

  /** The chart names, as `sorted(...)` followed by `[::-1]` leaves them. */
  function Names(ordered: seq<(string, seq<Triangle>)>): (names: seq<string>)
    ensures |names| == |ordered| && forall k :: 0 <= k < |ordered| ==> names[k] == ordered[k].0
  {
    seq(|ordered|, k requires 0 <= k < |ordered| => ordered[k].0)
  }

  /** The driver's ordering of `charts.items()`: every chart exactly once,
      paired with its own triangles, in strictly descending name order. The
      order in which the dictionary yields its keys is left open; the
      result does not depend on it (DescendingUnique). */
  method OrderCharts(charts: map<string, seq<Triangle>>) returns (ordered: seq<(string, seq<Triangle>)>)
    ensures Descending(Names(ordered))
    ensures forall c :: c in charts <==> c in Names(ordered)
    ensures |ordered| == |charts|
    ensures forall k :: 0 <= k < |ordered| ==> ordered[k].0 in charts && ordered[k].1 == charts[ordered[k].0]
  {
    var remaining := charts.Keys;
    var ascending: seq<string> := [];
    while remaining != {}
      invariant Ascending(ascending)
      invariant forall c :: c in charts <==> c in ascending || c in remaining
      invariant forall c :: c in ascending ==> c !in remaining
      invariant |ascending| + |remaining| == |charts|
      decreases |remaining|
    {
      var c :| c in remaining;
      ascending := InsertName(ascending, c);
      remaining := remaining - {c};
    }
    var names := Reverse(ascending);
    ordered := seq(|names|, k requires 0 <= k < |names| => (names[k], charts[names[k]]));
    assert Names(ordered) == names;
  }

  /** Two strictly descending lists of the same names are equal: the order
      of the charts is fully determined by their names. */
  lemma {:induction false} DescendingUnique(a: seq<string>, b: seq<string>)
    requires Descending(a) && Descending(b)
    requires forall x :: x in a <==> x in b
    ensures a == b
  {
    assert forall k :: 0 <= k < |b| ==> b[k] in a;
    assert forall k :: 0 <= k < |a| ==> a[k] in b;
    if a != [] {
      assert a[0] in b;
      if a[0] != b[0] {
        assert b[0] in b && a[0] in a;
        var i :| 0 <= i < |a| && a[i] == b[0];
        var j :| 0 <= j < |b| && b[j] == a[0];
        assert LexLess(b[0], a[0]);
        assert LexLess(a[0], b[0]);
        LexAsymmetric(a[0], b[0]);
        assert false;
      }
      forall x
        ensures x in a[1..] <==> x in b[1..]
      {
        if x in a[1..] {
          var i :| 1 <= i < |a| && a[i] == x;
          LexIrreflexive(x);
          assert x != a[0];
          assert x in b;
        }
        if x in b[1..] {
          var j :| 1 <= j < |b| && b[j] == x;
          LexIrreflexive(x);
          assert x != b[0];
          assert x in a;
        }
      }
      DescendingUnique(a[1..], b[1..]);
      assert a == [a[0]] + a[1..] && b == [b[0]] + b[1..];
    }
  }

  // ---------------------------------------------------------------------
  // Markers of one chart

  /** `x` placed after every marker at or before its position: the step of
      a stable insertion sort. */
  function InsertByPosition(s: seq<Triangle>, x: Triangle): (r: seq<Triangle>)
    ensures |r| == |s| + 1
  {
    if s == [] || s[|s| - 1].position <= x.position then s + [x]
    else InsertByPosition(s[..|s| - 1], x) + [s[|s| - 1]]
  }

  /** A stable sort by position: `list.sort(key=lambda a: a.position)`. */
  function StableSort(s: seq<Triangle>): (r: seq<Triangle>)
    ensures |r| == |s| && multiset(r) == multiset(s)
  {
    if s == [] then []
    else
      var init := s[..|s| - 1];
      LastSplit(s);
      InsertPermutes(StableSort(init), s[|s| - 1]);
      InsertByPosition(StableSort(init), s[|s| - 1])
  }

  /** The markers of `s` at position `p`, in order. */
  function AtPosition(s: seq<Triangle>, p: real): seq<Triangle> {
    if s == [] then []
    else AtPosition(s[..|s| - 1], p) + (if s[|s| - 1].position == p then [s[|s| - 1]] else [])
  }

  /** A sort step adds exactly the inserted marker. */
  lemma {:induction false} InsertPermutes(s: seq<Triangle>, x: Triangle)
    ensures multiset(InsertByPosition(s, x)) == multiset(s) + multiset{x}
  {
    if s != [] && s[|s| - 1].position > x.position {
      var init := s[..|s| - 1];
      InsertPermutes(init, x);
      LastSplit(s);
    }
  }

  lemma {:induction false} InsertSorted(s: seq<Triangle>, x: Triangle)
    requires SortedByPosition(s)
    ensures SortedByPosition(InsertByPosition(s, x))
  {
    if s != [] && s[|s| - 1].position > x.position {
      var init := s[..|s| - 1];
      var last := s[|s| - 1];
      var r := InsertByPosition(init, x);
      InsertSorted(init, x);
      InsertPermutes(init, x);
      forall k | 0 <= k < |r|
        ensures r[k].position <= last.position
      {
        assert r[k] in multiset(r);
        if r[k] != x {
          assert r[k] in multiset(init);
          var m :| 0 <= m < |init| && init[m] == r[k];
          assert s[m] == r[k];
        }
      }
    }
  }

  /** Inserting `x` puts it after the earlier markers at its own position
      and leaves every other position's markers as they were. */
  lemma {:induction false} InsertStable(s: seq<Triangle>, x: Triangle, p: real)
    ensures AtPosition(InsertByPosition(s, x), p) == AtPosition(s, p) + (if x.position == p then [x] else [])
  {
    if s == [] || s[|s| - 1].position <= x.position {
      AtPositionSnoc(s, x, p);
    } else {
      var init := s[..|s| - 1];
      var last := s[|s| - 1];
      InsertStable(init, x, p);
      AtPositionSnoc(InsertByPosition(init, x), last, p);
      LastSplit(s);
      AtPositionSnoc(init, last, p);
    }
  }

  /** The markers at `p` after appending `x`. */
  lemma AtPositionSnoc(s: seq<Triangle>, x: Triangle, p: real)
    ensures AtPosition(s + [x], p) == AtPosition(s, p) + (if x.position == p then [x] else [])
  {
    assert (s + [x])[..|s|] == s;
  }

  /** The sort yields its input ordered by position... */
  lemma {:induction false} StableSortSorted(s: seq<Triangle>)
    ensures SortedByPosition(StableSort(s))
  {
    if s != [] {
      var init := s[..|s| - 1];
      StableSortSorted(init);
      InsertSorted(StableSort(init), s[|s| - 1]);
    }
  }

  /** ...and keeps the markers that share a position in their file order. */
  lemma {:induction false} StableSortStable(s: seq<Triangle>, p: real)
    ensures AtPosition(StableSort(s), p) == AtPosition(s, p)
  {
    if s != [] {
      var init := s[..|s| - 1];
      StableSortStable(init, p);
      InsertStable(StableSort(init), s[|s| - 1], p);
    }
  }

  lemma SortedInit(s: seq<Triangle>)
    requires SortedByPosition(s) && |s| >= 1
    ensures SortedByPosition(s[..|s| - 1])
    ensures |s| >= 2 ==> s[..|s| - 1][|s| - 2].position <= s[|s| - 1].position
  {
  }

  /** A non-empty chart is its first markers followed by its last one. */
  lemma LastSplit(s: seq<Triangle>)
    requires s != []
    ensures s == s[..|s| - 1] + [s[|s| - 1]]
  {
  }

  /** An already sorted chart is left as it is. */
  lemma {:induction false} StableSortOfSorted(s: seq<Triangle>)
    requires SortedByPosition(s)
    ensures StableSort(s) == s
  {
    if s != [] {
      var init := s[..|s| - 1];
      var last := s[|s| - 1];
      LastSplit(s);
      SortedInit(s);
      StableSortOfSorted(init);
      assert StableSort(s) == InsertByPosition(init, last);
      assert InsertByPosition(init, last) == init + [last];
    }
  }

  /** Cutting a chart at `j` before or after dropping its last marker. */
  lemma SplitBefore(s: seq<Triangle>, j: int)
    requires 0 <= j < |s|
    ensures s[..|s| - 1][..j] == s[..j]
    ensures s[j..] == s[..|s| - 1][j..] + [s[|s| - 1]]
  {
  }

  /** Inserting `x` where the markers before it are at or before its
      position and the markers after it lie beyond it. */
  lemma {:induction false} InsertAt(s: seq<Triangle>, x: Triangle, j: int)
    requires 0 <= j <= |s| && (j == 0 || s[j - 1].position <= x.position)
    requires forall k :: j <= k < |s| ==> s[k].position > x.position
    ensures InsertByPosition(s, x) == s[..j] + [x] + s[j..]
  {
    if j < |s| {
      var init := s[..|s| - 1];
      InsertAt(init, x, j);
      SplitBefore(s, j);
    } else {
      assert s[..j] == s;
    }
  }

  /** The inner loop of an insertion step: the markers before `a[i]` that
      lie to its right are moved one slot up, leaving a hole at `j`. */
  method ShiftLarger(a: array<Triangle>, i: int, ghost s: seq<Triangle>) returns (j: int)
    requires 0 <= i < a.Length && a[..] == s
    modifies a
    ensures 0 <= j <= i && (j == 0 || s[j - 1].position <= s[i].position)
    ensures forall k :: j <= k < i ==> s[k].position > s[i].position
    ensures forall k :: 0 <= k < j ==> a[k] == s[k]
    ensures forall k :: j < k <= i ==> a[k] == s[k - 1]
    ensures forall k :: i < k < a.Length ==> a[k] == s[k]
  {
    var x := a[i];
    j := i;
    while j > 0 && a[j - 1].position > x.position
      invariant 0 <= j <= i && x == s[i]
      invariant forall k :: j <= k < i ==> s[k].position > x.position
      invariant forall k :: 0 <= k < j ==> a[k] == s[k]
      invariant forall k :: j < k <= i ==> a[k] == s[k - 1]
      invariant forall k :: i < k < a.Length ==> a[k] == s[k]
    {
      a[j] := a[j - 1];
      j := j - 1;
    }
  }

  /** One step of the in-place sort: `a[i]` is moved left past the larger
      markers before it. */
  method InsertInPlace(a: array<Triangle>, i: int)
    requires 0 <= i < a.Length
    modifies a
    ensures a[..] == InsertByPosition(old(a[..i]), old(a[i])) + old(a[i + 1..])
  {
    ghost var s := a[..];
    var x := a[i];
    var j := ShiftLarger(a, i, s);
    a[j] := x;
    Shifted(a[..], s, i, j);
    InsertInto(s, i, j);
  }

  /** The array after the shift, read as a sequence. */
  lemma Shifted(t: seq<Triangle>, s: seq<Triangle>, i: int, j: int)
    requires |t| == |s| && 0 <= j <= i < |s|
    requires forall k :: 0 <= k < j ==> t[k] == s[k]
    requires t[j] == s[i]
    requires forall k :: j < k <= i ==> t[k] == s[k - 1]
    requires forall k :: i < k < |s| ==> t[k] == s[k]
    ensures t == s[..j] + [s[i]] + s[j..i] + s[i + 1..]
  {
  }

  /** The shift stops where `s[i]` belongs. */
  lemma InsertInto(s: seq<Triangle>, i: int, j: int)
    requires 0 <= j <= i < |s| && (j == 0 || s[j - 1].position <= s[i].position)
    requires forall k :: j <= k < i ==> s[k].position > s[i].position
    ensures InsertByPosition(s[..i], s[i]) == s[..j] + [s[i]] + s[j..i]
  {
    InsertAt(s[..i], s[i], j);
    assert s[..i][..j] == s[..j] && s[..i][j..] == s[j..i];
  }

  /** Reading a sorted prefix followed by the unsorted rest. */
  lemma SplitAfter(sorted: seq<Triangle>, s: seq<Triangle>, i: int)
    requires 0 <= i < |s| && |sorted| == i
    ensures (sorted + s[i..])[..i] == sorted
    ensures (sorted + s[i..])[i] == s[i]
    ensures (sorted + s[i..])[i + 1..] == s[i + 1..]
  {
  }

  lemma StableSortStep(s: seq<Triangle>, i: int)
    requires 0 <= i < |s|
    ensures StableSort(s[..i + 1]) == InsertByPosition(StableSort(s[..i]), s[i])
  {
    assert s[..i + 1][..i] == s[..i];
  }

  /** `chart.sort(key=lambda a: a.position)`, in place. */
  method SortChart(a: array<Triangle>)
    modifies a
    ensures a[..] == StableSort(old(a[..]))
    ensures SortedByPosition(a[..]) && multiset(a[..]) == multiset(old(a[..]))
  {
    ghost var orig := a[..];
    for i := 0 to a.Length
      invariant a[..] == StableSort(orig[..i]) + orig[i..]
    {
      SplitAfter(StableSort(orig[..i]), orig, i);
      InsertInPlace(a, i);
      StableSortStep(orig, i);
    }
    assert orig[..a.Length] == orig;
    assert a[..] == StableSort(orig);
    StableSortSorted(orig);
  }

  /** One iteration of the driver's last loop: sort the chart, wrap it in a
      graph and add it. Sorting first is what makes the plotter's three-zone
      window enough: afterwards every marker clears every marker drawn
      before it on the same chart. */
  method PlotChart(out: Output, chart: array<Triangle>, length: real, centromere: real, name: Option<string>)
    returns (graph: Graph)
    requires out.Valid() && WindowCoversReach(out.cfg)
    requires forall k :: 0 <= k < chart.Length ==> Placeable(out.cfg, length, chart[k])
    modifies out, chart
    ensures out.Valid() && out.graphs == old(out.graphs) + [graph] && graph.triangles == chart
    ensures graph.length == length && graph.plength == centromere && graph.name == name
    ensures Arranged(out.cfg, old(chart[..]), chart[..]) && SortedByPosition(chart[..])
    ensures out.graphOffset == Extent(out.cfg, old(out.graphOffset), old(out.graphOffset), chart[..]) + out.cfg.labelSize
  {
    ghost var orig := chart[..];
    SortChart(chart);
    ghost var sorted := chart[..];
    PlaceablePermuted(out.cfg, length, orig, sorted);
    graph := new Graph(chart, length, centromere, name);
    out.AddGraph(graph);
    SortedRaised(sorted, chart[..]);
    RaisedPlaceable(out.cfg, length, sorted, chart[..]);
    WindowSuffices(out.cfg, chart[..]);
  }

  /** `graph` was made from `chart` with the given length and centromere,
      and its markers are the chart's, sorted by position and raised, each
      to the raise target of an earlier marker, until each clears every
      one before it. */
  ghost predicate LaidOut(cfg: Config, graph: Graph, chart: seq<Triangle>, length: real, centromere: real)
    requires cfg.Valid()
    reads graph.triangles
  {
    graph.length == length && graph.plength == centromere && Arranged(cfg, chart, graph.triangles[..])
  }

  /** `drawn` holds the markers of `chart` sorted by position and raised,
      each to the raise target of an earlier marker, until each clears
      every one before it. */
  predicate Arranged(cfg: Config, chart: seq<Triangle>, drawn: seq<Triangle>)
    requires cfg.Valid()
  {
    |drawn| == |chart| &&
    RaisedFrom(StableSort(chart), drawn) && Justified(cfg, StableSort(chart), drawn) && Settled(cfg, drawn)
  }

  /** The driver's last loop for one chart: its markers go into a new
      list, which is sorted, wrapped in a graph and added. */
  method PlotEntry(out: Output, chart: seq<Triangle>, length: real, centromere: real)
    returns (graph: Graph, ghost drawn: seq<Triangle>)
    requires out.Valid() && WindowCoversReach(out.cfg)
    requires forall m :: 0 <= m < |chart| ==> Placeable(out.cfg, length, chart[m])
    modifies out
    ensures out.Valid() && out.graphs == old(out.graphs) + [graph]
    ensures fresh(graph.triangles) && drawn == graph.triangles[..]
    ensures graph.length == length && graph.plength == centromere && Arranged(out.cfg, chart, drawn)
    ensures out.graphOffset == Extent(out.cfg, old(out.graphOffset), old(out.graphOffset), drawn) + out.cfg.labelSize
  {
    var markers := new Triangle[|chart|](m requires 0 <= m < |chart| => chart[m]);
    assert markers[..] == chart;
    graph := PlotChart(out, markers, length, centromere, None);
    drawn := markers[..];
  }

  /** The first `|graphs|` ordered charts became `graphs`: each graph's
      length and centromere are its chromosome's table entries in Mb, and
      `laid` holds its markers as arranged. */
  predicate ChartsPlotted(cfg: Config, ordered: seq<(string, seq<Triangle>)>, total: map<string, nat>,
                          first: map<string, nat>, graphs: seq<Graph>, laid: seq<seq<Triangle>>)
    requires cfg.Valid()
  {
    |graphs| == |laid| <= |ordered| &&
    forall k :: 0 <= k < |graphs| ==>
      ordered[k].0 in total && ordered[k].0 in first &&
      graphs[k].length == Features.Megabases(total[ordered[k].0]) &&
      graphs[k].plength == Features.Megabases(first[ordered[k].0]) &&
      Arranged(cfg, ordered[k].1, laid[k])
  }

  /** The charts plotted so far, with one more. */
  lemma ChartsPlottedExtend(cfg: Config, ordered: seq<(string, seq<Triangle>)>, total: map<string, nat>, first: map<string, nat>,
                            graphs: seq<Graph>, laid: seq<seq<Triangle>>, graph: Graph, drawn: seq<Triangle>)
    requires cfg.Valid() && ChartsPlotted(cfg, ordered, total, first, graphs, laid) && |graphs| < |ordered|
    requires ordered[|graphs|].0 in total && ordered[|graphs|].0 in first
    requires graph.length == Features.Megabases(total[ordered[|graphs|].0])
    requires graph.plength == Features.Megabases(first[ordered[|graphs|].0])
    requires Arranged(cfg, ordered[|graphs|].1, drawn)
    ensures ChartsPlotted(cfg, ordered, total, first, graphs + [graph], laid + [drawn])
  {
  }

  /** Read through the graphs' arrays, the plotted charts are laid out. */
  lemma ChartsLaidOut(cfg: Config, ordered: seq<(string, seq<Triangle>)>, total: map<string, nat>, first: map<string, nat>,
                      graphs: seq<Graph>, laid: seq<seq<Triangle>>)
    requires cfg.Valid() && ChartsPlotted(cfg, ordered, total, first, graphs, laid)
    requires forall k :: 0 <= k < |graphs| ==> laid[k] == graphs[k].triangles[..]
    ensures forall k :: 0 <= k < |graphs| ==>
              ordered[k].0 in total && ordered[k].0 in first &&
              LaidOut(cfg, graphs[k], ordered[k].1,
                      Features.Megabases(total[ordered[k].0]), Features.Megabases(first[ordered[k].0]))
  {
  }

  /** The markers drawn so far, with one more graph. */
  lemma LaidExtend(graphs: seq<Graph>, laid: seq<seq<Triangle>>, graph: Graph, drawn: seq<Triangle>)
    requires |graphs| == |laid| && drawn == graph.triangles[..]
    requires forall k :: 0 <= k < |graphs| ==> laid[k] == graphs[k].triangles[..]
    ensures forall k :: 0 <= k < |graphs| + 1 ==> (laid + [drawn])[k] == (graphs + [graph])[k].triangles[..]
  {
  }

  /** The driver's last loop: each ordered chart becomes a graph whose
      length and centromere come from the chromosome tables (in base pairs,
      shown in Mb), its markers sorted and then laid out, and the graphs are
      stacked in that order (`laid` holds their markers as drawn). */
  method PlotCharts(out: Output, ordered: seq<(string, seq<Triangle>)>, total: map<string, nat>, first: map<string, nat>)
    returns (graphs: seq<Graph>, ghost laid: seq<seq<Triangle>>)
    requires out.Valid() && WindowCoversReach(out.cfg)
    requires forall k :: 0 <= k < |ordered| ==> ordered[k].0 in total && ordered[k].0 in first
    requires forall k, m :: 0 <= k < |ordered| && 0 <= m < |ordered[k].1| ==>
               Placeable(out.cfg, Features.Megabases(total[ordered[k].0]), ordered[k].1[m])
    modifies out
    ensures out.Valid() && out.graphs == old(out.graphs) + graphs && |graphs| == |ordered|
    ensures forall k :: 0 <= k < |graphs| ==>
              LaidOut(out.cfg, graphs[k], ordered[k].1,
                      Features.Megabases(total[ordered[k].0]), Features.Megabases(first[ordered[k].0]))
    ensures |laid| == |graphs| && forall k :: 0 <= k < |graphs| ==> laid[k] == graphs[k].triangles[..]
    ensures out.graphOffset == Stacked(out.cfg, old(out.graphOffset), laid)
  {
    graphs, laid := [], [];
    for i := 0 to |ordered|
      invariant out.Valid() && out.graphs == old(out.graphs) + graphs && |graphs| == i
      invariant ChartsPlotted(out.cfg, ordered, total, first, graphs, laid)
      invariant forall k :: 0 <= k < i ==> laid[k] == graphs[k].triangles[..]
      invariant out.graphOffset == Stacked(out.cfg, old(out.graphOffset), laid)
    {
      var (chromosome, chart) := ordered[i];
      var length, centromere := Features.Megabases(total[chromosome]), Features.Megabases(first[chromosome]);
      var graph, drawn := PlotEntry(out, chart, length, centromere);
      ChartsPlottedExtend(out.cfg, ordered, total, first, graphs, laid, graph, drawn);
      LaidExtend(graphs, laid, graph, drawn);
      StackedSnoc(out.cfg, old(out.graphOffset), laid, drawn);
      graphs, laid := graphs + [graph], laid + [drawn];
    }
    ChartsLaidOut(out.cfg, ordered, total, first, graphs, laid);
  }

  /** Reordering markers keeps them placeable. */
  lemma PlaceablePermuted(cfg: Config, length: real, s: seq<Triangle>, t: seq<Triangle>)
    requires cfg.Valid() && multiset(t) == multiset(s)
    requires forall k :: 0 <= k < |s| ==> Placeable(cfg, length, s[k])
    ensures forall k :: 0 <= k < |t| ==> Placeable(cfg, length, t[k])
  {
    forall k | 0 <= k < |t|
      ensures Placeable(cfg, length, t[k])
    {
      assert t[k] in multiset(s);
      var m :| 0 <= m < |s| && s[m] == t[k];
    }
  }

  /** Raising markers leaves them in their zones. */
  lemma RaisedPlaceable(cfg: Config, length: real, s: seq<Triangle>, t: seq<Triangle>)
    requires cfg.Valid() && |t| == |s| && RaisedFrom(s, t)
    requires forall k :: 0 <= k < |s| ==> Placeable(cfg, length, s[k])
    ensures forall k :: 0 <= k < |t| ==> Placeable(cfg, length, t[k])
  {
    forall k | 0 <= k < |t|
      ensures Placeable(cfg, length, t[k])
    {
      assert t[k].position == s[k].position;
    }
  }

  /** Raising markers keeps them in position order. */
  lemma SortedRaised(s: seq<Triangle>, t: seq<Triangle>)
    requires SortedByPosition(s) && |t| == |s| && RaisedFrom(s, t)
    ensures SortedByPosition(t)
  {
    assert forall k :: 0 <= k < |t| ==> t[k].position == s[k].position;
  }
}
