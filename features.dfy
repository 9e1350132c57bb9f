/** The driver's reading of a GFF3 annotation file: each tab-separated line
    becomes at most one triangle, filed under its chromosome. Only genes and
    pseudogenes whose `Name=` attribute starts with "gr" or "ir" (any case)
    are kept. */
module Features {
  import opened Outcomes
  import opened Text
  import opened Layout

  /** Gustatory (gr) or ionotropic (ir) receptor, by name prefix. */
  datatype NameKind = Gr | Ir

  /** An accepted line: the chromosome it belongs to, its triangle and its
      receptor family. */
  datatype Feature = Feature(chromosome: string, triangle: Triangle, kind: NameKind)

  /** The errors the driver raises. */
  datatype LineError =
    | MultipleNames  // more than one Name= attribute on a line
    | BadStart       // column 4 is not a decimal numeral
    | BadStrand      // column 7 is neither "+" nor "-"

  datatype LineOutcome = Skip | Fail(error: LineError) | Accept(feature: Feature)

  const GrColor: string := "#b326ff"
  const IrColor: string := "orange"

  predicate IsGeneType(t: string) {
    t == "gene" || t == "pseudogene"
  }

  /** An attribute that sets the feature's name. */
  predicate IsName(setting: string) {
    "Name=" <= setting
  }

  /** The attributes that start with "Name=", in order. */
  function NameAttributes(settings: seq<string>): (names: seq<string>)
    ensures |names| <= |settings|
    ensures forall k :: 0 <= k < |names| ==> IsName(names[k])
  {
    if settings == [] then []
    else (if IsName(settings[0]) then [settings[0]] else []) + NameAttributes(settings[1..])
  }

  /** The names are exactly the attributes that start with "Name=". */
  lemma {:induction false} NameAttributesMember(settings: seq<string>, x: string)
    ensures x in NameAttributes(settings) <==> x in settings && IsName(x)
  {
    if settings != [] {
      NameAttributesMember(settings[1..], x);
      assert settings == [settings[0]] + settings[1..];
    }
  }

  /** Filtering a concatenation filters each part: the names keep the order
      of the attributes they come from. */
  lemma {:induction false} NameAttributesAppend(a: seq<string>, b: seq<string>)
    ensures NameAttributes(a + b) == NameAttributes(a) + NameAttributes(b)
  {
    if a == [] {
      assert a + b == b;
    } else {
      var head := if IsName(a[0]) then [a[0]] else [];
      assert (a + b)[0] == a[0] && (a + b)[1..] == a[1..] + b;
      NameAttributesAppend(a[1..], b);
      assert NameAttributes(a + b) == head + (NameAttributes(a[1..]) + NameAttributes(b));
      assert NameAttributes(a) == head + NameAttributes(a[1..]);
    }
  }

  /** The first name is the first attribute that starts with "Name=", and
      there is a second name exactly when a later attribute starts with
      "Name=" as well. */
  lemma {:induction false} NameAttributesFirst(settings: seq<string>, i: int)
    requires 0 <= i < |settings| && IsName(settings[i])
    requires forall k :: 0 <= k < i ==> !IsName(settings[k])
    ensures NameAttributes(settings) != [] && NameAttributes(settings)[0] == settings[i]
    ensures |NameAttributes(settings)| > 1 <==> exists j :: i < j < |settings| && IsName(settings[j])
  {
    var rest := settings[1..];
    if i == 0 {
      if |NameAttributes(settings)| > 1 {
        var x := NameAttributes(rest)[0];
        assert x in NameAttributes(rest);
        NameAttributesMember(rest, x);
        var j :| 0 <= j < |rest| && rest[j] == x;
        assert settings[j + 1] == x;
      }
      if exists j :: i < j < |settings| && IsName(settings[j]) {
        var j :| i < j < |settings| && IsName(settings[j]);
        NameAttributesMember(rest, rest[j - 1]);
      }
    } else {
      NameAttributesFirst(rest, i - 1);
      if exists j :: i < j < |settings| && IsName(settings[j]) {
        var j :| i < j < |settings| && IsName(settings[j]);
        assert IsName(rest[j - 1]);
      }
    }
  }

  /** A line has more than one name exactly when two of its attributes start
      with "Name=". */
  lemma {:induction false} NameAttributesMultiple(settings: seq<string>)
    ensures |NameAttributes(settings)| > 1 <==>
            exists i, j :: 0 <= i < j < |settings| && IsName(settings[i]) && IsName(settings[j])
  {
    if settings != [] {
      var rest := settings[1..];
      if IsName(settings[0]) {
        NameAttributesFirst(settings, 0);
        if exists i, j :: 0 <= i < j < |settings| && IsName(settings[i]) && IsName(settings[j]) {
          var i, j :| 0 <= i < j < |settings| && IsName(settings[i]) && IsName(settings[j]);
          assert 0 < j < |settings| && IsName(settings[j]);
        }
      } else {
        NameAttributesMultiple(rest);
        assert NameAttributes(settings) == NameAttributes(rest);
        TwoNamesInTail(settings);
      }
    }
  }

  /** Two names among the attributes lie past a first attribute that is
      not a name. */
  lemma TwoNamesInTail(settings: seq<string>)
    requires settings != [] && !IsName(settings[0])
    ensures (exists i, j :: 0 <= i < j < |settings| && IsName(settings[i]) && IsName(settings[j])) <==>
            (exists i, j :: 0 <= i < j < |settings| - 1 && IsName(settings[1..][i]) && IsName(settings[1..][j]))
  {
    var rest := settings[1..];
    if exists i, j :: 0 <= i < j < |rest| && IsName(rest[i]) && IsName(rest[j]) {
      var i, j :| 0 <= i < j < |rest| && IsName(rest[i]) && IsName(rest[j]);
      assert IsName(settings[i + 1]) && IsName(settings[j + 1]);
    }
    if exists i, j :: 0 <= i < j < |settings| && IsName(settings[i]) && IsName(settings[j]) {
      var i, j :| 0 <= i < j < |settings| && IsName(settings[i]) && IsName(settings[j]);
      assert IsName(rest[i - 1]) && IsName(rest[j - 1]);
    }
  }

  /** The receptor family named by a `Name=` value, if any: gr when the
      value begins with the letters g, r in either case, ir when it begins
      with i, r. */
  function KindOf(name: string): (kind: Option<NameKind>)
    ensures kind == Some(Gr) <==> |name| >= 2 && LowerChar(name[0]) == 'g' && LowerChar(name[1]) == 'r'
    ensures kind == Some(Ir) <==> |name| >= 2 && LowerChar(name[0]) == 'i' && LowerChar(name[1]) == 'r'
  {
    var lower := Lower(name);
    assert |name| >= 2 ==> lower[..2] == [LowerChar(name[0]), LowerChar(name[1])];
    if "gr" <= lower then Some(Gr)
    else if "ir" <= lower then Some(Ir)
    else None
  }

  function ColorOf(kind: NameKind): string {
    match kind
    case Gr => GrColor
    case Ir => IrColor
  }

  /** The strand symbol of a direction: "+" faces right, "-" left. */
  function StrandOf(direction: Direction): string {
    match direction
    case Right => "+"
    case Left => "-"
  }

  /** The strand column read as a direction: the one direction whose
      symbol it is, or none when it is neither symbol. */
  function DirectionOf(strand: string): (d: Option<Direction>)
    ensures d.Some? ==> StrandOf(d.value) == strand
    ensures d.None? <==> strand != StrandOf(Right) && strand != StrandOf(Left)
  {
    if strand == "+" then Some(Right)
    else if strand == "-" then Some(Left)
    else None
  }

  /** A start coordinate in base pairs as a position in Mb: the
      non-negative number of millions it makes. */
  function Megabases(start: nat): (mb: real)
    ensures mb >= 0.0 && mb * 1000000.0 == start as real
  {
    start as real / 1000000.0
  }

  /** The body of the driver's `for line in file` loop, without its effects:
      what the line contributes, if anything. */
  function ClassifyLine(line: string): (o: LineOutcome)
    ensures var cols := Split(line, '\t');
            o != Skip ==> |cols| >= 9 && IsGeneType(cols[2])
    ensures o.Accept? ==> o.feature.triangle.heightOffset == 0.0
  {
    var cols := Split(line, '\t');
    if |cols| < 9 then Skip
    else if cols[2] != "gene" && cols[2] != "pseudogene" then Skip
    else
      var names := NameAttributes(Split(cols[8], ';'));
      if |names| > 1 then Fail(MultipleNames)
      else if |names| == 0 then Skip
      else
        var name := names[0][5..];
        match KindOf(name)
        case None => Skip
        case Some(kind) =>
          match ParseNat(cols[3])
          case None => Fail(BadStart)
          case Some(start) =>
            match DirectionOf(cols[6])
            case None => Fail(BadStrand)
            case Some(direction) =>
              Accept(Feature(cols[0], NewTriangle(Megabases(start), cols[2] == "gene", direction, ColorOf(kind)), kind))
  }

  /** One GFF3 record, its nine columns in order; the start coordinate is a
      number and the attributes a list. */
  datatype Record = Record(
    seqid: string, source: string, featureType: string, start: nat, end: string,
    score: string, strand: string, phase: string, attributes: seq<string>)

  /** A record whose fields can be written on one line: no field holds a
      tab, no attribute a semicolon, and there is at least one attribute. */
  predicate Writable(r: Record) {
    '\t' !in r.seqid && '\t' !in r.source && '\t' !in r.featureType && '\t' !in r.end &&
    '\t' !in r.score && '\t' !in r.strand && '\t' !in r.phase &&
    |r.attributes| >= 1 &&
    forall k :: 0 <= k < |r.attributes| ==> '\t' !in r.attributes[k] && ';' !in r.attributes[k]
  }

  function Columns(r: Record): seq<string>
    requires |r.attributes| >= 1
  {
    [r.seqid, r.source, r.featureType, Numeral(r.start), r.end, r.score, r.strand, r.phase, Join(r.attributes, ';')]
  }

  /** The record as a GFF3 line. */
  function FormatLine(r: Record): string
    requires |r.attributes| >= 1
  {
    Join(Columns(r), '\t')
  }

  lemma {:induction false} NoSepInJoin(parts: seq<string>, sep: char, other: char)
    requires |parts| >= 1 && sep != other
    requires forall k :: 0 <= k < |parts| ==> other !in parts[k]
    ensures other !in Join(parts, sep)
  {
    if |parts| > 1 {
      NoSepInJoin(parts[1..], sep, other);
    }
  }

  /** Reading a formatted line gives back its columns and attributes. */
  lemma ReadBack(r: Record)
    requires Writable(r)
    ensures Split(FormatLine(r), '\t') == Columns(r)
    ensures Split(Split(FormatLine(r), '\t')[8], ';') == r.attributes
  {
    var cols := Columns(r);
    NoSepInJoin(r.attributes, ';', '\t');
    forall k | 0 <= k < |r.attributes| ensures ';' !in r.attributes[k] { }
    assert '\t' !in Numeral(r.start) by {
      forall k | 0 <= k < |Numeral(r.start)| ensures Numeral(r.start)[k] != '\t' {
        assert IsDigit(Numeral(r.start)[k]);
      }
    }
    forall k | 0 <= k < |cols| ensures '\t' !in cols[k] { }
    SplitJoin(cols, '\t');
    SplitJoin(r.attributes, ';');
  }

  /** A gene or pseudogene line with exactly one `Name=` attribute, a gr/ir
      name, a numeric start and a "+"/"-" strand is accepted, and the
      feature carries the record's chromosome, position, type and strand. */
  lemma AcceptFormatted(r: Record, kind: NameKind, direction: Direction)
    requires Writable(r) && IsGeneType(r.featureType)
    requires |NameAttributes(r.attributes)| == 1
    requires KindOf(NameAttributes(r.attributes)[0][5..]) == Some(kind)
    requires DirectionOf(r.strand) == Some(direction)
    ensures ClassifyLine(FormatLine(r)) ==
            Accept(Feature(r.seqid,
                           Triangle(Megabases(r.start), r.featureType == "gene", direction, ColorOf(kind), 0.0),
                           kind))
  {
    ReadBack(r);
    ParseNumeral(r.start);
  }

  /** Two `Name=` attributes on a gene or pseudogene line is an error. */
  lemma MultipleNamesFail(r: Record)
    requires Writable(r) && IsGeneType(r.featureType)
    requires |NameAttributes(r.attributes)| > 1
    ensures ClassifyLine(FormatLine(r)) == Fail(MultipleNames)
  {
    ReadBack(r);
  }

  /** A strand other than "+" or "-" on an otherwise accepted line is an
      error. */
  lemma BadStrandFails(r: Record)
    requires Writable(r) && IsGeneType(r.featureType)
    requires |NameAttributes(r.attributes)| == 1
    requires KindOf(NameAttributes(r.attributes)[0][5..]).Some?
    requires DirectionOf(r.strand).None?
    ensures ClassifyLine(FormatLine(r)) == Fail(BadStrand)
  {
    ReadBack(r);
    ParseNumeral(r.start);
  }

  /** Lines of other types, lines without a `Name=` attribute and names of
      other families are skipped. */
  lemma SkipsFormatted(r: Record)
    requires Writable(r)
    requires !IsGeneType(r.featureType) ||
             |NameAttributes(r.attributes)| == 0 ||
             (|NameAttributes(r.attributes)| == 1 && KindOf(NameAttributes(r.attributes)[0][5..]).None?)
    ensures ClassifyLine(FormatLine(r)) == Skip
  {
    ReadBack(r);
  }

  /** A line with fewer than nine tab-separated fields (a header or comment)
      is skipped. */
  lemma ShortLineSkipped(line: string)
    requires |Split(line, '\t')| < 9
    ensures ClassifyLine(line) == Skip
  {
  }

  // ---------------------------------------------------------------------
  // Accumulation over the file

  /** No line of `lines` raises an error. */
  predicate NoFailure(lines: seq<string>) {
    forall k :: 0 <= k < |lines| ==> !ClassifyLine(lines[k]).Fail?
  }

  lemma NoFailureStep(prefix: seq<string>, line: string)
    requires NoFailure(prefix) && !ClassifyLine(line).Fail?
    ensures NoFailure(prefix + [line])
  {
    assert forall k :: 0 <= k < |prefix| ==> (prefix + [line])[k] == prefix[k];
  }

  /** The accepted features of `lines`, in file order. */
  function Accepted(lines: seq<string>): seq<Feature> {
    if lines == [] then []
    else
      var last := ClassifyLine(lines[|lines| - 1]);
      Accepted(lines[..|lines| - 1]) + (if last.Accept? then [last.feature] else [])
  }

  /** The triangles of the features on chromosome `c`, in order. */
  function TrianglesOn(features: seq<Feature>, c: string): seq<Triangle> {
    if features == [] then []
    else
      var last := features[|features| - 1];
      TrianglesOn(features[..|features| - 1], c) + (if last.chromosome == c then [last.triangle] else [])
  }

  /** The number of features of family `kind`. */
  function CountKind(features: seq<Feature>, kind: NameKind): nat {
    if features == [] then 0
    else CountKind(features[..|features| - 1], kind) + (if features[|features| - 1].kind == kind then 1 else 0)
  }

  /** Every feature is counted in exactly one family: `gr + ir` is the
      number of stored triangles. */
  lemma {:induction false} CountsAddUp(features: seq<Feature>)
    ensures CountKind(features, Gr) + CountKind(features, Ir) == |features|
  {
    if features != [] {
      CountsAddUp(features[..|features| - 1]);
    }
  }

  /** A chromosome has a (non-empty) chart exactly when some feature is on
      it. */
  lemma {:induction false} TrianglesOnEmpty(features: seq<Feature>, c: string)
    ensures TrianglesOn(features, c) == [] <==> forall k :: 0 <= k < |features| ==> features[k].chromosome != c
  {
    if features != [] {
      TrianglesOnEmpty(features[..|features| - 1], c);
      assert forall k :: 0 <= k < |features| - 1 ==> features[..|features| - 1][k] == features[k];
    }
  }

  /** Appending one line to the file extends the accepted features by that
      line's feature, if it has one. */
  lemma AppendLine(prefix: seq<string>, line: string)
    ensures var o := ClassifyLine(line);
            Accepted(prefix + [line]) == Accepted(prefix) + (if o.Accept? then [o.feature] else [])
  {
    assert (prefix + [line])[..|prefix|] == prefix;
  }

  /** A new feature extends its own chromosome's chart and its own family's
      count, and nothing else. */
  lemma AppendFeature(features: seq<Feature>, f: Feature)
    ensures forall c :: TrianglesOn(features + [f], c) ==
                        TrianglesOn(features, c) + (if f.chromosome == c then [f.triangle] else [])
    ensures CountKind(features + [f], Gr) == CountKind(features, Gr) + (if f.kind == Gr then 1 else 0)
    ensures CountKind(features + [f], Ir) == CountKind(features, Ir) + (if f.kind == Ir then 1 else 0)
  {
    assert (features + [f])[..|features|] == features;
  }

  /** `charts` holds, for each chromosome with a feature, that chromosome's
      triangles in order, and no other key. */
  ghost predicate ChartsOf(charts: map<string, seq<Triangle>>, features: seq<Feature>) {
    (forall c :: c in charts <==> TrianglesOn(features, c) != []) &&
    (forall c :: c in charts ==> charts[c] == TrianglesOn(features, c))
  }

  /** Appending `t` to the chart of chromosome `c`, creating it if needed. */
  function AddTriangle(charts: map<string, seq<Triangle>>, c: string, t: Triangle): (r: map<string, seq<Triangle>>)
    ensures r.Keys == charts.Keys + {c}
    ensures r[c] == (if c in charts then charts[c] else []) + [t]
    ensures forall d :: d in charts && d != c ==> r[d] == charts[d]
  {
    if c in charts then charts[c := charts[c] + [t]] else charts[c := [t]]
  }

  lemma ChartsStep(charts: map<string, seq<Triangle>>, features: seq<Feature>, f: Feature)
    requires ChartsOf(charts, features)
    ensures ChartsOf(AddTriangle(charts, f.chromosome, f.triangle), features + [f])
  {
    AppendFeature(features, f);
  }

  /** The total number of triangles stored under the chromosomes `keys`. */
  ghost function ChartSize(charts: map<string, seq<Triangle>>, keys: set<string>): nat
    requires keys <= charts.Keys
    decreases keys
  {
    if keys == {} then 0
    else
      var c :| c in keys;
      |charts[c]| + ChartSize(charts, keys - {c})
  }

  /** Any one chromosome's list can be counted first. */
  lemma {:induction false} ChartSizeRemove(charts: map<string, seq<Triangle>>, keys: set<string>, c: string)
    requires keys <= charts.Keys && c in keys
    ensures ChartSize(charts, keys) == |charts[c]| + ChartSize(charts, keys - {c})
    decreases keys
  {
    var d :| d in keys && ChartSize(charts, keys) == |charts[d]| + ChartSize(charts, keys - {d});
    if d != c {
      ChartSizeRemove(charts, keys - {d}, c);
      ChartSizeRemove(charts, keys - {c}, d);
      assert keys - {d} - {c} == keys - {c} - {d};
    }
  }

  /** Maps that agree on `keys` store as many triangles under them. */
  lemma {:induction false} ChartSizeAgree(a: map<string, seq<Triangle>>, b: map<string, seq<Triangle>>, keys: set<string>)
    requires keys <= a.Keys && keys <= b.Keys
    requires forall c :: c in keys ==> a[c] == b[c]
    ensures ChartSize(a, keys) == ChartSize(b, keys)
    decreases keys
  {
    if keys != {} {
      var c :| c in keys;
      ChartSizeRemove(a, keys, c);
      ChartSizeRemove(b, keys, c);
      ChartSizeAgree(a, b, keys - {c});
    }
  }

  /** Filing one triangle stores exactly one more triangle. */
  lemma AddTriangleSize(charts: map<string, seq<Triangle>>, c: string, t: Triangle)
    ensures var r := AddTriangle(charts, c, t);
            ChartSize(r, r.Keys) == ChartSize(charts, charts.Keys) + 1
  {
    var r := AddTriangle(charts, c, t);
    ChartSizeRemove(r, r.Keys, c);
    assert r.Keys - {c} == charts.Keys - {c};
    ChartSizeAgree(r, charts, charts.Keys - {c});
    if c in charts {
      ChartSizeRemove(charts, charts.Keys, c);
    } else {
      assert charts.Keys - {c} == charts.Keys;
    }
  }

  /** What the driver has gathered: the triangles of each chromosome and
      the two family counters. */
  datatype Charts = Charts(charts: map<string, seq<Triangle>>, gr: nat, ir: nat)

  /** The driver's `for line in file` loop: classify each line, count it,
      and append its triangle to its chromosome's list; the first error
      stops the run. */
  method CollectCharts(lines: seq<string>) returns (result: Result<Charts, LineError>)
    ensures result.Err? ==>
              exists k :: 0 <= k < |lines| && NoFailure(lines[..k]) && ClassifyLine(lines[k]) == Fail(result.error)
    ensures result.Ok? ==> NoFailure(lines)
    ensures result.Ok? ==>
              var features := Accepted(lines);
              var out := result.value;
              (forall c :: c in out.charts <==> TrianglesOn(features, c) != []) &&
              (forall c :: c in out.charts ==> out.charts[c] == TrianglesOn(features, c)) &&
              out.gr == CountKind(features, Gr) && out.ir == CountKind(features, Ir) &&
              out.gr + out.ir == |features| &&
              ChartSize(out.charts, out.charts.Keys) == out.gr + out.ir
  {
    var charts: map<string, seq<Triangle>> := map[];
    var gr, ir := 0, 0;
    for i := 0 to |lines|
      invariant NoFailure(lines[..i])
      invariant ChartsOf(charts, Accepted(lines[..i]))
      invariant gr == CountKind(Accepted(lines[..i]), Gr) && ir == CountKind(Accepted(lines[..i]), Ir)
      invariant ChartSize(charts, charts.Keys) == |Accepted(lines[..i])|
    {
      assert lines[..i + 1] == lines[..i] + [lines[i]];
      AppendLine(lines[..i], lines[i]);
      var o := ClassifyLine(lines[i]);
      if o.Fail? {
        assert 0 <= i < |lines| && NoFailure(lines[..i]) && ClassifyLine(lines[i]) == Fail(o.error);
        return Err(o.error);
      }
      NoFailureStep(lines[..i], lines[i]);
      ghost var before := Accepted(lines[..i]);
      if o.Accept? {
        var f := o.feature;
        assert Accepted(lines[..i + 1]) == before + [f];
        AppendFeature(Accepted(lines[..i]), f);
        ChartsStep(charts, Accepted(lines[..i]), f);
        AddTriangleSize(charts, f.chromosome, f.triangle);
        if f.kind == Gr { gr := gr + 1; } else { ir := ir + 1; }
        charts := AddTriangle(charts, f.chromosome, f.triangle);
      } else {
        assert Accepted(lines[..i + 1]) == before;
      }
    }
    assert lines[..|lines|] == lines;
    CountsAddUp(Accepted(lines));
    result := Ok(Charts(charts, gr, ir));
  }
}
