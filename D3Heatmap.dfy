/**
 * The grid heatmap of src/components/repository/D3ContributionHeatmap.tsx:
 * a fixed 364-day grid filled from the activity by date, a cell size fitted
 * to the container width, cell positions, and the threshold colour scale.
 * The clock is a parameter: `dayString(i)` is the date `i` days before today.
 */
module D3Heatmap {
  import opened Optional
  import opened Types
  import Js

  const DaysShown: nat := 364
  const MarginTop: int := 10
  const MarginRight: int := 10
  const MarginBottom: int := 40
  const MarginLeft: int := 40
  const CellGap: int := 3
  const WeekCount: int := 52
  const DayCount: int := 7

  /** The date-to-count map, later entries overwriting earlier ones: a date is a key exactly when some entry has it. */
  function ActivityMap(activity: seq<ActivityLevel>): (m: map<string, int>)
    ensures forall d :: d in m <==> exists i :: 0 <= i < |activity| && activity[i].date == d
    decreases |activity|
  {
    if activity == [] then map[]
    else
      var n := |activity| - 1;
      ActivityMap(activity[..n])[activity[n].date := activity[n].count]
  }

  /** When several entries share a date, the map holds the count of the last one. */
  lemma {:induction false} LastEntryWins(activity: seq<ActivityLevel>, k: nat)
    requires k < |activity|
    requires forall j :: k < j < |activity| ==> activity[j].date != activity[k].date
    ensures activity[k].date in ActivityMap(activity)
    ensures ActivityMap(activity)[activity[k].date] == activity[k].count
    decreases |activity|
  {
    var n := |activity| - 1;
    var prefix := activity[..n];
    if k < n {
      assert prefix[k] == activity[k];
      assert forall j :: k < j < |prefix| ==> prefix[j].date != prefix[k].date by {
        forall j | k < j < |prefix| ensures prefix[j].date != prefix[k].date {
          assert prefix[j] == activity[j];
        }
      }
      LastEntryWins(prefix, k);
      assert activity[n].date != activity[k].date;
    }
  }

  /** The count the map holds for a date, or 0. */
  function CountOn(activity: seq<ActivityLevel>, date: string): int
  {
    var m := ActivityMap(activity);
    if date in m then m[date] else 0
  }

  /** The entry pushed for the day `back` days before today. */
  function Day(activity: seq<ActivityLevel>, dayString: nat -> string, back: nat): ActivityLevel
  {
    ActivityLevel(dayString(back), CountOn(activity, dayString(back)), 0)
  }

  /** Days without activity count zero, whatever the activity holds for other dates. */
  lemma QuietDay(activity: seq<ActivityLevel>, dayString: nat -> string, back: nat)
    requires forall i :: 0 <= i < |activity| ==> activity[i].date != dayString(back)
    ensures Day(activity, dayString, back).count == 0
  {
  }

  /** The loop from 363 down to 0: oldest day first, one entry per day. */
  method Grid(activity: seq<ActivityLevel>, dayString: nat -> string) returns (data: seq<ActivityLevel>)
    ensures |data| == DaysShown
    ensures forall k :: 0 <= k < |data| ==> data[k] == Day(activity, dayString, DaysShown - 1 - k)
  {
    var activityMap := ActivityMap(activity);
    data := [];
    var i: int := DaysShown - 1;
    while i >= 0
      invariant -1 <= i <= DaysShown - 1
      invariant |data| == DaysShown - 1 - i
      invariant forall k :: 0 <= k < |data| ==> data[k] == Day(activity, dayString, DaysShown - 1 - k)
    {
      var dateStr := dayString(i);
      var count := if dateStr in activityMap then activityMap[dateStr] else 0;
      data := data + [ActivityLevel(dateStr, count, 0)];
      i := i - 1;
    }
  }

  function AvailableWidth(containerWidth: int): int
  {
    containerWidth - MarginLeft - MarginRight
  }

  /**
   * The fitted cell size, floor((available - 52 * 3) / 52) clamped to 2..12: the largest
   * size from 2 to 12 whose 52 columns fit the available width, or 2 when
   * none does.
   */
  function CellSize(containerWidth: int): (size: int)
    ensures 2 <= size <= 12
    ensures size == 2 || WeekCount * (size + CellGap) <= AvailableWidth(containerWidth)
    ensures size == 12 || WeekCount * (size + 1 + CellGap) > AvailableWidth(containerWidth)
  {
    var calculated := (AvailableWidth(containerWidth) - WeekCount * CellGap) / WeekCount;
    if calculated < 2 then 2 else if calculated > 12 then 12 else calculated
  }

  /** A wider container never gives smaller cells. */
  lemma CellSizeMonotonic(narrow: int, wide: int)
    requires narrow <= wide
    ensures CellSize(narrow) <= CellSize(wide)
  {
  }

  function Width(size: int): int { WeekCount * (size + CellGap) }
  function Height(size: int): int { DayCount * (size + CellGap) }

  /** Column by week, row by weekday. */
  function CellX(i: nat, size: int): int { (i / DayCount) * (size + CellGap) }
  function CellY(i: nat, size: int): int { (i % DayCount) * (size + CellGap) }

  lemma MulMonotonic(a: int, b: int, c: int)
    requires a <= b && 0 <= c
    ensures a * c <= b * c
  {
  }

  lemma MulStrict(a: int, b: int, c: int)
    requires a < b && 0 < c
    ensures a * c + c <= b * c
  {
    MulMonotonic(a + 1, b, c);
  }

  /** Every one of the 364 cells lies inside the drawn grid. */
  lemma CellInsideGrid(i: nat, size: int)
    requires i < DaysShown && 0 <= size
    ensures 0 <= CellX(i, size) && CellX(i, size) + size <= Width(size)
    ensures 0 <= CellY(i, size) && CellY(i, size) + size <= Height(size)
  {
    MulMonotonic(0, i / DayCount, size + CellGap);
    MulStrict(i / DayCount, WeekCount, size + CellGap);
    MulMonotonic(0, i % DayCount, size + CellGap);
    MulStrict(i % DayCount, DayCount, size + CellGap);
  }

  /** Two different days never share any pixel: they differ by a whole cell and gap in x or in y. */
  lemma CellsDoNotOverlap(i: nat, j: nat, size: int)
    requires i != j && 0 <= size
    ensures CellX(i, size) + size < CellX(j, size) || CellX(j, size) + size < CellX(i, size)
         || CellY(i, size) + size < CellY(j, size) || CellY(j, size) + size < CellY(i, size)
  {
    var step := size + CellGap;
    if i / DayCount < j / DayCount {
      MulStrict(i / DayCount, j / DayCount, step);
    } else if j / DayCount < i / DayCount {
      MulStrict(j / DayCount, i / DayCount, step);
    } else if i % DayCount < j % DayCount {
      MulStrict(i % DayCount, j % DayCount, step);
    } else {
      assert i == DayCount * (i / DayCount) + i % DayCount;
      assert j == DayCount * (j / DayCount) + j % DayCount;
      MulStrict(j % DayCount, i % DayCount, step);
    }
  }

  /** The threshold domain of the colour scale. */
  const Thresholds: seq<int> := [1, 4, 8, 12]

  /** The index `scaleThreshold` picks: how many thresholds are at most `x` (bisect right on a sorted domain). */
  function Bucket(thresholds: seq<int>, x: int): (r: nat)
    ensures r <= |thresholds|
  {
    if thresholds == [] then 0
    else (if thresholds[0] <= x then 1 else 0) + Bucket(thresholds[1..], x)
  }

  /** The five bands of the scale: below 1, 1 to 3, 4 to 7, 8 to 11, 12 and above. */
  lemma BucketBands(x: int)
    ensures x < 1 ==> Bucket(Thresholds, x) == 0
    ensures 1 <= x < 4 ==> Bucket(Thresholds, x) == 1
    ensures 4 <= x < 8 ==> Bucket(Thresholds, x) == 2
    ensures 8 <= x < 12 ==> Bucket(Thresholds, x) == 3
    ensures 12 <= x ==> Bucket(Thresholds, x) == 4
  {
    var t := Thresholds;
    assert t[1..] == [4, 8, 12] && t[1..][1..] == [8, 12] && t[1..][1..][1..] == [12];
    assert t[1..][1..][1..][1..] == [];
    assert Bucket([12], x) == if 12 <= x then 1 else 0;
    assert Bucket([8, 12], x) == (if 8 <= x then 1 else 0) + Bucket([12], x);
    assert Bucket([4, 8, 12], x) == (if 4 <= x then 1 else 0) + Bucket([8, 12], x);
    assert Bucket(t, x) == (if 1 <= x then 1 else 0) + Bucket([4, 8, 12], x);
  }

  /** More activity never gets a lighter colour. */
  lemma {:induction false} BucketMonotonic(thresholds: seq<int>, x: int, y: int)
    requires x <= y
    ensures Bucket(thresholds, x) <= Bucket(thresholds, y)
    decreases |thresholds|
  {
    if thresholds != [] {
      BucketMonotonic(thresholds[1..], x, y);
    }
  }

  function Colours(isDarkMode: bool): (colours: seq<string>)
    ensures |colours| == |Thresholds| + 1
  {
    var baseColor := if isDarkMode then "39, 39, 42" else "244, 244, 245";
    ["rgba(" + baseColor + ", 0.5)",
     "rgba(139, 92, 246, 0.15)",
     "rgba(139, 92, 246, 0.4)",
     "rgba(139, 92, 246, 0.7)",
     "#8b5cf6"]
  }

  function Fill(count: int, isDarkMode: bool): string
  {
    Colours(isDarkMode)[Bucket(Thresholds, count)]
  }

  datatype Cell = Cell(x: int, y: int, size: int, fill: string, title: string)
  datatype Heatmap = Heatmap(svgWidth: int, svgHeight: int, cells: seq<Cell>)

  function CellOf(i: nat, day: ActivityLevel, size: int, isDarkMode: bool): Cell
  {
    Cell(CellX(i, size), CellY(i, size), size, Fill(day.count, isDarkMode),
         day.date + ": " + Js.IntToText(day.count) + " points detected")
  }

  /**
   * The effect: nothing is drawn for empty activity; otherwise 364 cells, the
   * i-th for the day 363 - i days ago, in an svg sized to the grid plus margins.
   */
  method Render(activity: seq<ActivityLevel>, containerWidth: int, isDarkMode: bool, dayString: nat -> string)
    returns (r: Option<Heatmap>)
    ensures r.None? <==> activity == []
    ensures r.Some? ==> r.value.svgWidth == Width(CellSize(containerWidth)) + MarginLeft + MarginRight
    ensures r.Some? ==> r.value.svgHeight == Height(CellSize(containerWidth)) + MarginTop + MarginBottom
    ensures r.Some? ==> |r.value.cells| == DaysShown
    ensures r.Some? ==> forall k :: 0 <= k < |r.value.cells| ==>
      r.value.cells[k] == CellOf(k, Day(activity, dayString, DaysShown - 1 - k), CellSize(containerWidth), isDarkMode)
  {
    if |activity| == 0 {
      return None;
    }
    var data := Grid(activity, dayString);
    var size := CellSize(containerWidth);
    var cells := seq(|data|, k requires 0 <= k < |data| => CellOf(k, data[k], size, isDarkMode));
    r := Some(Heatmap(Width(size) + MarginLeft + MarginRight, Height(size) + MarginTop + MarginBottom, cells));
  }
}
