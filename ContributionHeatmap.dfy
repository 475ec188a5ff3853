/**
 * The list heatmap of src/components/repository/ContributionHeatmap.tsx: the
 * last 364 days chunked into weeks of seven, and the level colour classes.
 */
module ContributionHeatmap {
  import opened Types

  /** 52 weeks of 7 days. */
  const DaysShown: nat := 364

  /** `activity.slice(-364)` */
  function Recent(activity: seq<ActivityLevel>): (r: seq<ActivityLevel>)
    ensures |r| == if |activity| < DaysShown then |activity| else DaysShown
    ensures r == activity[|activity| - |r|..]
  {
    if |activity| > DaysShown then activity[|activity| - DaysShown..] else activity
  }

  /** The weeks read one after another. */
  function Flatten(weeks: seq<seq<ActivityLevel>>): seq<ActivityLevel>
  {
    if weeks == [] then [] else Flatten(weeks[..|weeks| - 1]) + weeks[|weeks| - 1]
  }

  lemma FlattenAppend(weeks: seq<seq<ActivityLevel>>, week: seq<ActivityLevel>)
    ensures Flatten(weeks + [week]) == Flatten(weeks) + week
  {
    assert (weeks + [week])[..|weeks|] == weeks;
  }

  /** Every week but the last has seven days, and none is empty or longer. */
  predicate Chunked(weeks: seq<seq<ActivityLevel>>)
  {
    (forall i :: 0 <= i < |weeks| ==> 1 <= |weeks[i]| <= 7) &&
    (forall i :: 0 <= i < |weeks| - 1 ==> |weeks[i]| == 7)
  }

  predicate AllFull(weeks: seq<seq<ActivityLevel>>)
  {
    forall i :: 0 <= i < |weeks| ==> |weeks[i]| == 7
  }

  /** Closing a week after full ones keeps the weeks chunked, and full when it is full. */
  lemma CloseWeek(weeks: seq<seq<ActivityLevel>>, week: seq<ActivityLevel>)
    requires AllFull(weeks) && 1 <= |week| <= 7
    ensures Chunked(weeks + [week])
    ensures |week| == 7 ==> AllFull(weeks + [week])
  {
  }

  /** The loop invariant of `Weeks` before the day at `index`. */
  predicate Progress(recent: seq<ActivityLevel>, index: nat, weeks: seq<seq<ActivityLevel>>, current: seq<ActivityLevel>)
  {
    index <= |recent| && Flatten(weeks) + current == recent[..index] && |current| < 7 &&
    (index < |recent| ==> AllFull(weeks) && 7 * |weeks| + |current| == index) &&
    (index == |recent| ==> current == [] && Chunked(weeks) && 7 * |weeks| - 7 < index <= 7 * |weeks|)
  }

  /** One day of the `forEach`, when it closes the week. */
  lemma CloseStep(recent: seq<ActivityLevel>, index: nat, weeks: seq<seq<ActivityLevel>>, current: seq<ActivityLevel>)
    requires Progress(recent, index, weeks, current) && index < |recent|
    requires |current| == 6 || index == |recent| - 1
    ensures Progress(recent, index + 1, weeks + [current + [recent[index]]], [])
  {
    var week := current + [recent[index]];
    assert recent[..index + 1] == recent[..index] + [recent[index]];
    FlattenAppend(weeks, week);
    CloseWeek(weeks, week);
  }

  /** One day of the `forEach`, when the week stays open. */
  lemma OpenStep(recent: seq<ActivityLevel>, index: nat, weeks: seq<seq<ActivityLevel>>, current: seq<ActivityLevel>)
    requires Progress(recent, index, weeks, current) && index < |recent|
    requires |current| != 6 && index != |recent| - 1
    ensures Progress(recent, index + 1, weeks, current + [recent[index]])
  {
    assert recent[..index + 1] == recent[..index] + [recent[index]];
  }

  /**
   * The `forEach` that fills `weeks`: reading the weeks in order gives back
   * the recent activity, every week but the last has seven days, none is
   * empty, and so there are ceil(m/7) of them (see `WeekCount`).
   */
  method Weeks(activity: seq<ActivityLevel>) returns (weeks: seq<seq<ActivityLevel>>)
    ensures Flatten(weeks) == Recent(activity)
    ensures Chunked(weeks)
    ensures 7 * |weeks| - 7 < |Recent(activity)| <= 7 * |weeks|
    ensures |weeks| <= 52
  {
    var recent := Recent(activity);
    weeks := [];
    var current: seq<ActivityLevel> := [];
    assert recent[..0] == [];
    for index := 0 to |recent|
      invariant Progress(recent, index, weeks, current)
    {
      if |current| == 6 || index == |recent| - 1 {
        CloseStep(recent, index, weeks, current);
      } else {
        OpenStep(recent, index, weeks, current);
      }
      current := current + [recent[index]];
      if |current| == 7 || index == |recent| - 1 {
        weeks := weeks + [current];
        current := [];
      }
    }
    assert recent[..|recent|] == recent;
  }

  /** Weeks of at most seven days, all full but the last: there are ceil(n/7) of them. */
  lemma WeekCount(n: nat, w: nat)
    requires 7 * w - 7 < n <= 7 * w
    ensures w == (n + 6) / 7
  {
    var q := (n + 6) / 7;
    assert 7 * q <= n + 6 < 7 * q + 7;
  }

  /** `getLevelColor` */
  function LevelColor(level: int): string
  {
    match level
    case 0 => "bg-gray-100 dark:bg-zinc-800"
    case 1 => "bg-green-200 dark:bg-green-900/50"
    case 2 => "bg-green-400 dark:bg-green-700"
    case 3 => "bg-green-600 dark:bg-green-500"
    case 4 => "bg-green-800 dark:bg-green-300"
    case _ => "bg-gray-100 dark:bg-zinc-800"
  }

  /** Levels 0 to 4 get five different classes; any other level looks like level 0. */
  lemma LevelColorsDistinct(a: int, b: int)
    ensures 0 <= a <= 4 && 0 <= b <= 4 && a != b ==> LevelColor(a) != LevelColor(b)
    ensures !(0 <= a <= 4) ==> LevelColor(a) == LevelColor(0)
  {
  }
}
