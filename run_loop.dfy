/**
  The per-river run: for every year and season, the Dynamic World prediction
  is validated against the JRC stable-water reference on the river corridor,
  and one row of metrics is appended to the river's summary table.

  What the raster service supplies for a river is gathered in `Inputs`: the
  corridor's pixel grid, the median Dynamic World water probability of the
  images in a date range, the JRC occurrence layer, and the pixel order that
  the seeded stratified sampler follows for a date range.
 */
module RiverRun {
  import opened Raster
  import opened Calendar
  import opened WaterMasks
  import opened Accuracy

  const Rivers: seq<string> := ["SipseyRiver", "BlackWarriorRiver", "CahabaRiver", "CoosaRiver"]
  const DwProbThresh: real := 0.5
  const JrcOccThresh: real := 50.0
  const ValidNPerClass: nat := 2000
  const Years: seq<int> := [2016, 2020, 2024]
  /** The two hydrological seasons; `SeasonName` is the key of the window table and the row's label. */
  datatype Season = Dry | Wet

  function SeasonName(s: Season): string
  {
    match s
    case Dry => "dry"
    case Wet => "wet"
  }

  const Seasons: seq<Season> := [Dry, Wet]

  /** A season window; both days belong to the season. */
  datatype Window = Window(first: Date, last: Date)

  /**
    The season windows, the same for each river and each run year: dry from
    1 August to 31 October, wet from 1 January to 30 April.
   */
  function SeasonWindow(year: int, season: Season): (w: Window)
    ensures Valid(w.first) && Valid(w.last) && !Before(w.last, w.first)
    ensures w.first.year == year && w.last.year == year
  {
    match season
    case Dry => Window(Date(year, 8, 1), Date(year, 10, 31))
    case Wet => Window(Date(year, 1, 1), Date(year, 4, 30))
  }

  /** A day of a year belongs to at most one season window, so the two seasons never share an image. */
  lemma SeasonsDisjoint(year: int, x: Date)
    requires Valid(x)
    ensures !(InRange(x, SeasonWindow(year, Dry).first, NextDay(SeasonWindow(year, Dry).last)) &&
              InRange(x, SeasonWindow(year, Wet).first, NextDay(SeasonWindow(year, Wet).last)))
  {
    InclusiveWindow(SeasonWindow(year, Dry).first, SeasonWindow(year, Dry).last, x);
    InclusiveWindow(SeasonWindow(year, Wet).first, SeasonWindow(year, Wet).last, x);
  }

  /** What the raster service supplies for one river's corridor. */
  datatype Inputs = Inputs(
    gridSize: nat,
    dwComposite: (Date, Date) -> Band<real>,
    occurrence: Band<real>,
    sampleOrder: (Date, Date) -> seq<nat>)

  /**
    One row of the summary table; `start` and `end` are the window's first and
    last day. The metric columns are computed from the window's error matrix.
   */
  datatype Row = Row(
    river: string, year: int, season: string, start: Date, end: Date,
    dwProbThresh: real, jrcOccThresh: real, cm: ErrorMatrix, nSamples: nat)
  {
    function OA(): Option<real> { OverallAccuracy(cm) }
    function Kappa(): Option<real> { Accuracy.Kappa(cm) }
    function PrecisionWater(): Option<real> { Precision(cm) }
    function RecallWater(): Option<real> { Recall(cm) }
    function F1Water(): Option<real> { F1(Precision(cm), Recall(cm)) }
    function IoUWater(): Option<real> { IoU(cm) }
  }

  /** `dwMask.unmask(0)`: 1 where the probability reaches the threshold, 0 everywhere else. */
  function Prediction01(prob: Band<real>): (r: Band<int>)
    ensures |r| == |prob|
    ensures forall i | 0 <= i < |r| :: r[i] == Some(0) || r[i] == Some(1)
    ensures forall i | 0 <= i < |r| :: r[i] == Some(1) <==> prob[i].Some? && prob[i].value >= DwProbThresh
  {
    var dwMask := DwBinary(prob, DwProbThresh);
    UnmaskedIsBinary(dwMask);
    Unmask(dwMask, 0)
  }

  /**
    `jrcRef.unmask(0)`: 1 where occurrence reaches the threshold, 0 everywhere
    else, including the pixels the reference left out as neither stable water
    nor stable land.
   */
  function Reference01(occ: Band<real>): (r: Band<int>)
    ensures |r| == |occ|
    ensures forall i | 0 <= i < |r| :: r[i] == Some(0) || r[i] == Some(1)
    ensures forall i | 0 <= i < |r| :: r[i] == Some(1) <==> occ[i].Some? && occ[i].value >= JrcOccThresh
  {
    var jrcRef := JrcStable(occ, JrcOccThresh);
    UnmaskedIsBinary(jrcRef);
    Unmask(jrcRef, 0)
  }

  /**
    Filling the reference with 0 undoes the exclusion of ambiguous pixels: a
    pixel the reference masks (occurrence strictly between 1 and the
    threshold) enters the validation as stable land.
   */
  lemma AmbiguousBecomesLand(occ: Band<real>, i: nat)
    requires i < |occ| && occ[i].Some? && 1.0 < occ[i].value < JrcOccThresh
    ensures JrcStable(occ, JrcOccThresh)[i] == None
    ensures Reference01(occ)[i] == Some(0)
  {
  }

  /**
    The prediction of a window: the Dynamic World composite of the images dated
    from its first day up to, not including, the day after its last, clipped to
    the corridor, thresholded and filled with 0.
   */
  function WindowPrediction(w: Window, env: Inputs): (r: Band<int>)
    requires Valid(w.last)
    ensures |r| == env.gridSize
  {
    Prediction01(Clip(env.dwComposite(w.first, NextDay(w.last)), env.gridSize))
  }

  /** The reference: JRC stable water on the corridor, filled with 0. */
  function WindowReference(env: Inputs): (r: Band<int>)
    ensures |r| == env.gridSize
  {
    Reference01(Clip(env.occurrence, env.gridSize))
  }

  /** The pixel order the seeded sampler follows in a window. */
  function WindowOrder(w: Window, env: Inputs): seq<nat>
    requires Valid(w.last)
  {
    env.sampleOrder(w.first, NextDay(w.last))
  }

  /**
    The validation of one window: the window's DW prediction against the JRC
    reference, each reference class sampled up to 2000 points.
   */
  function WindowValidation(w: Window, env: Inputs): (v: Validation)
    requires Valid(w.last)
    ensures v == StratifiedValidate(WindowPrediction(w, env), WindowReference(env), WindowOrder(w, env), ValidNPerClass)
    ensures |v.samples| <= 2 * ValidNPerClass && Total(v.cm) == |v.samples|
    ensures v.cm.tn + v.cm.fp == Min(ValidNPerClass,
      ClassCount(WindowReference(env), FilterSampleable(WindowReference(env), WindowPrediction(w, env), WindowOrder(w, env)), 0))
    ensures v.cm.fn + v.cm.tp == Min(ValidNPerClass,
      ClassCount(WindowReference(env), FilterSampleable(WindowReference(env), WindowPrediction(w, env), WindowOrder(w, env)), 1))
  {
    StratifiedValidate(WindowPrediction(w, env), WindowReference(env), WindowOrder(w, env), ValidNPerClass)
  }

  /** The row for one (year, season): the window's validation, labelled with the season's name. */
  function WindowRow(river: string, year: int, season: Season, env: Inputs): (r: Row)
    ensures r.river == river && r.year == year && r.season == SeasonName(season)
    ensures Window(r.start, r.end) == SeasonWindow(year, season)
    ensures r.dwProbThresh == DwProbThresh && r.jrcOccThresh == JrcOccThresh
    ensures r.cm == WindowValidation(SeasonWindow(year, season), env).cm
    ensures r.nSamples == |WindowValidation(SeasonWindow(year, season), env).samples|
    ensures r.nSamples == Total(r.cm) <= 2 * ValidNPerClass
  {
    var w := SeasonWindow(year, season);
    var v := WindowValidation(w, env);
    Row(river, year, SeasonName(season), w.first, w.last, DwProbThresh, JrcOccThresh, v.cm, |v.samples|)
  }

  /**
    Every metric of a row is within its range: OA, precision, recall in
    [0, 1], Kappa in [-1, 1], and a positive IoU never exceeds F1. OA is
    missing exactly when the window produced no samples.
   */
  lemma RowMetricsInRange(r: Row)
    requires r.nSamples == Total(r.cm)
    ensures r.OA().Some? <==> r.nSamples > 0
    ensures r.OA().Some? ==> 0.0 <= r.OA().value <= 1.0
    ensures r.Kappa().Some? ==> -1.0 <= r.Kappa().value <= 1.0
    ensures r.PrecisionWater().Some? ==> 0.0 <= r.PrecisionWater().value <= 1.0
    ensures r.RecallWater().Some? ==> 0.0 <= r.RecallWater().value <= 1.0
    ensures r.IoUWater().Some? && r.IoUWater().value > 0.0 ==>
      r.F1Water().Some? && r.IoUWater().value <= r.F1Water().value <= 1.0
  {
    if r.Kappa().Some? {
      KappaBounds(r.cm);
    }
    if r.IoUWater().Some? && r.IoUWater().value > 0.0 {
      IoUWithinF1(r.cm);
    }
  }

  /** The cell of the run's table for (year, season): that window's row. */
  function RowCell(river: string, env: Inputs): (int, Season) -> Row
  {
    (year: int, season: Season) => WindowRow(river, year, season, env)
  }

  /** The cells of one year, one per season, in season order. */
  function SeasonRows<R>(year: int, seasons: seq<Season>, cell: (int, Season) -> R): seq<R>
  {
    if seasons == [] then []
    else
      var n := |seasons| - 1;
      SeasonRows(year, seasons[..n], cell) + [cell(year, seasons[n])]
  }

  /** The cells of a run: the years in order, and within a year the seasons in order. */
  function RiverRows<R>(years: seq<int>, seasons: seq<Season>, cell: (int, Season) -> R): seq<R>
  {
    if years == [] then []
    else
      var n := |years| - 1;
      RiverRows(years[..n], seasons, cell) + SeasonRows(years[n], seasons, cell)
  }

  lemma {:induction false} SeasonRowsIndex<R>(year: int, seasons: seq<Season>, cell: (int, Season) -> R)
    ensures |SeasonRows(year, seasons, cell)| == |seasons|
    ensures forall j | 0 <= j < |seasons| :: SeasonRows(year, seasons, cell)[j] == cell(year, seasons[j])
  {
    if seasons != [] {
      SeasonRowsIndex(year, seasons[..|seasons| - 1], cell);
    }
  }

  lemma IndexBelow(i: nat, j: nat, n: nat, m: nat)
    requires i < n && j < m
    ensures i * m + j < n * m
  {
    MulMonotone(i + 1, n, m);
    MulSucc(i, m);
  }

  lemma MulSucc(n: nat, m: nat)
    ensures (n + 1) * m == n * m + m
  {
  }

  lemma MulMonotone(a: nat, b: nat, m: nat)
    requires a <= b
    ensures a * m <= b * m
  {
  }

  /** A run has one row per (year, season). */
  lemma {:induction false} RiverRowsLength<R>(years: seq<int>, seasons: seq<Season>, cell: (int, Season) -> R)
    ensures |RiverRows(years, seasons, cell)| == |years| * |seasons|
  {
    if years != [] {
      var n := |years| - 1;
      RiverRowsLength(years[..n], seasons, cell);
      SeasonRowsIndex(years[n], seasons, cell);
      MulSucc(n, |seasons|);
    }
  }

  /** The rows are year-major: the row of year i and season j is at position i * |seasons| + j. */
  lemma {:induction false} RiverRowsAt<R>(years: seq<int>, seasons: seq<Season>, cell: (int, Season) -> R, i: nat, j: nat)
    requires i < |years| && j < |seasons|
    ensures i * |seasons| + j < |RiverRows(years, seasons, cell)|
    ensures RiverRows(years, seasons, cell)[i * |seasons| + j] == cell(years[i], seasons[j])
  {
    var n := |years| - 1;
    var m := |seasons|;
    var prev := RiverRows(years[..n], seasons, cell);
    var last := SeasonRows(years[n], seasons, cell);
    assert RiverRows(years, seasons, cell) == prev + last;
    RiverRowsLength(years[..n], seasons, cell);
    SeasonRowsIndex(years[n], seasons, cell);
    if i < n {
      RiverRowsAt(years[..n], seasons, cell, i, j);
      IndexBelow(i, j, n, m);
      assert years[..n][i] == years[i];
    } else {
      assert i * m + j == |prev| + j;
    }
  }

  /**
    The nested year and season loops of `processRiver`: for each year, for each
    season, compute that cell of the table and append it.
   */
  method CollectRows<R>(years: seq<int>, seasons: seq<Season>, cell: (int, Season) -> R) returns (rows: seq<R>)
    ensures rows == RiverRows(years, seasons, cell)
  {
    rows := [];
    var i := 0;
    while i < |years|
      invariant 0 <= i <= |years|
      invariant rows == RiverRows(years[..i], seasons, cell)
    {
      var year := years[i];
      var j := 0;
      while j < |seasons|
        invariant 0 <= j <= |seasons|
        invariant rows == RiverRows(years[..i], seasons, cell) + SeasonRows(year, seasons[..j], cell)
      {
        rows := rows + [cell(year, seasons[j])];
        assert seasons[..j + 1][..j] == seasons[..j];
        j := j + 1;
      }
      assert years[..i + 1][..i] == years[..i];
      assert seasons[..j] == seasons;
      i := i + 1;
    }
    assert years[..i] == years;
  }

  /** `processRiver`: the summary table of one river, one row per (year, season) of the run. */
  method ProcessRiver(river: string, env: Inputs) returns (metrics: seq<Row>)
    requires river in Rivers
    ensures metrics == RiverRows(Years, Seasons, RowCell(river, env))
    ensures |metrics| == |Years| * |Seasons| == 6
  {
    metrics := CollectRows(Years, Seasons, RowCell(river, env));
    RiverRowsLength(Years, Seasons, RowCell(river, env));
  }

  /**
    With the run's years and seasons the table has six rows: 2016 dry, 2016
    wet, 2020 dry, 2020 wet, 2024 dry, 2024 wet.
   */
  lemma SixRows<R>(cell: (int, Season) -> R)
    ensures RiverRows(Years, Seasons, cell) == [
      cell(2016, Dry), cell(2016, Wet), cell(2020, Dry), cell(2020, Wet), cell(2024, Dry), cell(2024, Wet)]
  {
    RiverRowsLength(Years, Seasons, cell);
    RiverRowsAt(Years, Seasons, cell, 0, 0);
    RiverRowsAt(Years, Seasons, cell, 0, 1);
    RiverRowsAt(Years, Seasons, cell, 1, 0);
    RiverRowsAt(Years, Seasons, cell, 1, 1);
    RiverRowsAt(Years, Seasons, cell, 2, 0);
    RiverRowsAt(Years, Seasons, cell, 2, 1);
  }
}
