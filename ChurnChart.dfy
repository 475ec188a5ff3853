/**
 * The churn scatter plot of src/components/repository/D3ChurnChart.tsx:
 * point colours, the labelled candidates ordered by score, the label text
 * and box, the greedy placement that drops overlapping labels, and the
 * pinned tooltips toggled by clicks. The log and linear scales are
 * parameters: `at(d)` is the scaled point of a file.
 */
module ChurnChart {
  import opened Optional
  import opened Types
  import opened Text
  import opened Sequences

  /** The fill of a point: rose, yellow and violet for three categories, zinc for the rest. */
  function PointColour(category: Category): (colour: string)
    ensures colour == "#f43f5e" <==> category == Hotspot
    ensures colour == "#eab308" <==> category == Massive
    ensures colour == "#8b5cf6" <==> category == Frequent
    ensures colour == "#71717a" <==> category.Stable? || category.Other?
  {
    if category == Hotspot then "#f43f5e"
    else if category == Massive then "#eab308"
    else if category == Frequent then "#8b5cf6"
    else "#71717a"
  }

  /** The colour by the category string, as the source compares it. */
  lemma PointColourOfTag(tag: string)
    ensures PointColour(CategoryOf(tag)) == "#f43f5e" <==> tag == "hotspot"
    ensures PointColour(CategoryOf(tag)) == "#eab308" <==> tag == "massive"
    ensures PointColour(CategoryOf(tag)) == "#8b5cf6" <==> tag == "frequent"
    ensures PointColour(CategoryOf(tag)) == "#71717a" <==> tag != "hotspot" && tag != "massive" && tag != "frequent"
  {
  }

  /** Files that may get a label: hotspots, massive files and scores above 50. */
  predicate IsCandidate(d: ChurnFile)
  {
    d.category == Hotspot || d.category == Massive || d.churnScore > 50
  }

  /** The `filter` step. */
  function KeepCandidates(churn: seq<ChurnFile>): (kept: seq<ChurnFile>)
    ensures forall d :: d in kept <==> d in churn && IsCandidate(d)
    ensures IsSubsequence(kept, churn)
    ensures forall d :: multiset(kept)[d] == if IsCandidate(d) then multiset(churn)[d] else 0
  {
    if churn == [] then []
    else
      var rest := KeepCandidates(churn[1..]);
      assert churn == [churn[0]] + churn[1..];
      assert multiset(churn) == multiset{churn[0]} + multiset(churn[1..]);
      if IsCandidate(churn[0]) then
        assert multiset([churn[0]] + rest) == multiset{churn[0]} + multiset(rest);
        [churn[0]] + rest
      else rest
  }

  predicate SortedByScore(s: seq<ChurnFile>)
  {
    forall i, j :: 0 <= i < j < |s| ==> s[i].churnScore >= s[j].churnScore
  }

  /** Places `d` after every entry whose score is at least its own. */
  function InsertByScore(d: ChurnFile, sorted: seq<ChurnFile>): seq<ChurnFile>
  {
    if sorted == [] then [d]
    else if sorted[0].churnScore >= d.churnScore then [sorted[0]] + InsertByScore(d, sorted[1..])
    else [d] + sorted
  }

  /** Inserting adds exactly `d`. */
  lemma {:induction false} InsertByScorePermutes(d: ChurnFile, sorted: seq<ChurnFile>)
    ensures multiset(InsertByScore(d, sorted)) == multiset(sorted) + multiset{d}
  {
    if sorted != [] && sorted[0].churnScore >= d.churnScore {
      var rest := InsertByScore(d, sorted[1..]);
      InsertByScorePermutes(d, sorted[1..]);
      assert InsertByScore(d, sorted) == [sorted[0]] + rest;
      assert multiset([sorted[0]] + rest) == multiset([sorted[0]]) + multiset(rest);
      assert sorted == [sorted[0]] + sorted[1..];
      assert multiset(sorted) == multiset([sorted[0]]) + multiset(sorted[1..]);
    } else {
      assert InsertByScore(d, sorted) == [d] + sorted;
    }
  }

  /** Inserting into a list ordered by descending score keeps it ordered; the head is `d` or the old head. */
  lemma {:induction false} InsertByScoreSorted(d: ChurnFile, sorted: seq<ChurnFile>)
    requires SortedByScore(sorted)
    ensures SortedByScore(InsertByScore(d, sorted))
    ensures |InsertByScore(d, sorted)| == |sorted| + 1
    ensures InsertByScore(d, sorted)[0] == d || (sorted != [] && InsertByScore(d, sorted)[0] == sorted[0])
  {
    if sorted != [] && sorted[0].churnScore >= d.churnScore {
      var rest := InsertByScore(d, sorted[1..]);
      InsertByScoreSorted(d, sorted[1..]);
      var r := [sorted[0]] + rest;
      assert sorted[0].churnScore >= rest[0].churnScore;
      forall i, j | 0 <= i < j < |r|
        ensures r[i].churnScore >= r[j].churnScore
      {
        if i == 0 {
          assert r[j] == rest[j - 1];
          if j > 1 {
            assert rest[0].churnScore >= rest[j - 1].churnScore;
          }
        } else {
          assert r[i] == rest[i - 1] && r[j] == rest[j - 1];
        }
      }
    }
  }

  /** The candidate sort: highest score first, a permutation of the input. */
  function SortByScore(s: seq<ChurnFile>): (r: seq<ChurnFile>)
    ensures SortedByScore(r)
    ensures multiset(r) == multiset(s)
    decreases |s|
  {
    if s == [] then []
    else
      var n := |s| - 1;
      assert s == s[..n] + [s[n]];
      var sorted := SortByScore(s[..n]);
      InsertByScorePermutes(s[n], sorted);
      InsertByScoreSorted(s[n], sorted);
      InsertByScore(s[n], sorted)
  }

  /** The files in line for a label, in the order they claim a place. */
  function Labels(churn: seq<ChurnFile>): seq<ChurnFile>
  {
    SortByScore(KeepCandidates(churn))
  }

  /** Exactly the candidates get in line, each as often as in the input, highest score first. */
  lemma LabelsAreSortedCandidates(churn: seq<ChurnFile>)
    ensures forall d :: d in Labels(churn) <==> d in churn && IsCandidate(d)
    ensures forall d :: multiset(Labels(churn))[d] == if IsCandidate(d) then multiset(churn)[d] else 0
    ensures SortedByScore(Labels(churn))
  {
    var kept := KeepCandidates(churn);
    forall d
      ensures d in Labels(churn) <==> d in kept
    {
      assert d in Labels(churn) <==> d in multiset(Labels(churn));
      assert d in kept <==> d in multiset(kept);
    }
  }

  /** The text after the last '/', or the whole path when that text is empty. */
  function Name(path: string): (name: string)
    ensures name != path ==>
      name != "" && '/' !in name && |name| < |path| &&
      path[|path| - |name|..] == name && path[|path| - |name| - 1] == '/'
    ensures name == path ==> '/' !in path || path[|path| - 1] == '/'
  {
    LastSegmentIsSuffix(path, '/');
    var last := LastSegment(path, '/');
    if last == "" then path else last
  }

  /** A name longer than 20 characters keeps its first 18 and gains an ellipsis. */
  function LabelText(path: string): (text: string)
    ensures |text| <= 21
    ensures |Name(path)| <= 20 ==> text == Name(path)
    ensures |Name(path)| > 20 ==> |text| == 21 && text[..18] == Name(path)[..18] && text[18..] == "..."
  {
    var name := Name(path);
    if |name| > 20 then name[..18] + "..." else name
  }

  datatype Box = Box(x: int, y: int, width: int, height: int)

  /** `getLabelConfig`: 8 right and 3 below the point, 6 per character wide, 14 high. */
  function LabelBox(d: ChurnFile, at: ChurnFile -> (int, int)): Box
  {
    Box(at(d).0 + 8, at(d).1 + 3, 6 * |LabelText(d.filePath)|, 14)
  }

  /** A label box is at most 126 wide (21 characters) and always 14 high. */
  lemma LabelBoxSize(d: ChurnFile, at: ChurnFile -> (int, int))
    ensures 0 <= LabelBox(d, at).width <= 126 && LabelBox(d, at).height == 14
  {
  }

  /** The overlap test of the `some` callback: open rectangles intersect. */
  predicate Collides(config: Box, placed: Box)
  {
    config.x < placed.x + placed.width && config.x + config.width > placed.x &&
    config.y < placed.y + placed.height && config.y + config.height > placed.y
  }

  lemma CollidesSymmetric(a: Box, b: Box)
    ensures Collides(a, b) <==> Collides(b, a)
  {
  }

  /** Boxes that only share an edge do not collide. */
  lemma TouchingDoNotCollide(a: Box, b: Box)
    requires a.x + a.width == b.x || a.y + a.height == b.y
    ensures !Collides(a, b) && !Collides(b, a)
  {
  }

  /** The box of each label once the scales have placed its point. */
  function LabelBoxAt(at: ChurnFile -> (int, int)): (box: ChurnFile -> Box)
    ensures forall d :: box(d) == LabelBox(d, at)
  {
    d => LabelBox(d, at)
  }

  /** The boxes of the labels kept so far, in the order they were pushed. */
  function Boxes(kept: seq<ChurnFile>, box: ChurnFile -> Box): (boxes: seq<Box>)
    ensures |boxes| == |kept|
    decreases |kept|
  {
    if kept == [] then [] else Boxes(kept[..|kept| - 1], box) + [box(kept[|kept| - 1])]
  }

  lemma BoxesAppend(kept: seq<ChurnFile>, d: ChurnFile, box: ChurnFile -> Box)
    ensures Boxes(kept + [d], box) == Boxes(kept, box) + [box(d)]
  {
    assert (kept + [d])[..|kept|] == kept;
  }

  /** The `j`-th box is the box of the `j`-th kept label. */
  lemma {:induction false} BoxesAt(kept: seq<ChurnFile>, box: ChurnFile -> Box, j: nat)
    requires j < |kept|
    ensures Boxes(kept, box)[j] == box(kept[j])
    decreases |kept|
  {
    var n := |kept| - 1;
    if j < n {
      BoxesAt(kept[..n], box, j);
    }
  }

  /** `placed.some(...)`, scanned from the last box back. */
  predicate HitsAny(config: Box, placed: seq<Box>)
    decreases |placed|
  {
    placed != [] && (Collides(config, placed[|placed| - 1]) || HitsAny(config, placed[..|placed| - 1]))
  }

  /** The scan finds a hit exactly when some placed box collides. */
  lemma {:induction false} HitsAnyExists(config: Box, placed: seq<Box>)
    ensures HitsAny(config, placed) <==> exists j :: 0 <= j < |placed| && Collides(config, placed[j])
    decreases |placed|
  {
    if placed != [] {
      var n := |placed| - 1;
      HitsAnyExists(config, placed[..n]);
      if exists j :: 0 <= j < |placed| && Collides(config, placed[j]) {
        var j :| 0 <= j < |placed| && Collides(config, placed[j]);
        if j < n {
          assert placed[..n][j] == placed[j];
        }
      }
      if exists j :: 0 <= j < n && Collides(config, placed[..n][j]) {
        var j :| 0 <= j < n && Collides(config, placed[..n][j]);
        assert placed[j] == placed[..n][j];
      }
    }
  }

  /** One call of the filter callback: `d` is kept when its box hits no box kept so far. */
  function Step(kept: seq<ChurnFile>, d: ChurnFile, box: ChurnFile -> Box): (r: seq<ChurnFile>)
    ensures r == kept || r == kept + [d]
    ensures r == kept + [d] <==> !HitsAny(box(d), Boxes(kept, box))
  {
    if HitsAny(box(d), Boxes(kept, box)) then kept else kept + [d]
  }

  /** The greedy filter: a label is kept when it overlaps no label kept before it. */
  function Placed(labels: seq<ChurnFile>, box: ChurnFile -> Box): seq<ChurnFile>
    decreases |labels|
  {
    if labels == [] then []
    else Step(Placed(labels[..|labels| - 1], box), labels[|labels| - 1], box)
  }

  /** `labels.filter(...)` with `placedLabels.push(config)`. */
  method VisibleLabels(labels: seq<ChurnFile>, box: ChurnFile -> Box) returns (visible: seq<ChurnFile>)
    ensures visible == Placed(labels, box)
  {
    var placedLabels: seq<Box> := [];
    visible := [];
    for i := 0 to |labels|
      invariant visible == Placed(labels[..i], box)
      invariant placedLabels == Boxes(visible, box)
    {
      var config := box(labels[i]);
      var hasCollision := HitsAny(config, placedLabels);
      assert labels[..i + 1][..i] == labels[..i];
      assert Placed(labels[..i + 1], box) == Step(visible, labels[i], box);
      if !hasCollision {
        BoxesAppend(visible, labels[i], box);
        placedLabels := placedLabels + [config];
        visible := visible + [labels[i]];
      }
    }
    assert labels[..|labels|] == labels;
  }

  /** No two shown labels overlap. */
  lemma {:induction false} PlacedApart(labels: seq<ChurnFile>, box: ChurnFile -> Box)
    ensures forall i, j :: 0 <= i < |Placed(labels, box)| && 0 <= j < |Placed(labels, box)| && i != j ==>
      !Collides(box(Placed(labels, box)[i]), box(Placed(labels, box)[j]))
    decreases |labels|
  {
    if labels != [] {
      var n := |labels| - 1;
      var kept := Placed(labels[..n], box);
      PlacedApart(labels[..n], box);
      var d := labels[n];
      var m := |kept|;
      if !HitsAny(box(d), Boxes(kept, box)) {
        var p := kept + [d];
        assert Placed(labels, box) == p;
        forall i, j | 0 <= i < |p| && 0 <= j < |p| && i != j
          ensures !Collides(box(p[i]), box(p[j]))
        {
          HitsAnyExists(box(d), Boxes(kept, box));
          if i == m {
            assert p[i] == d && p[j] == kept[j];
            BoxesAt(kept, box, j);
            assert !Collides(box(d), Boxes(kept, box)[j]);
          } else if j == m {
            assert p[j] == d && p[i] == kept[i];
            BoxesAt(kept, box, i);
            assert !Collides(box(d), Boxes(kept, box)[i]);
            CollidesSymmetric(box(d), box(kept[i]));
          } else {
            assert p[i] == kept[i] && p[j] == kept[j];
          }
        }
      }
    }
  }

  /** Shown labels keep the order they had in line. */
  lemma {:induction false} PlacedSubsequence(labels: seq<ChurnFile>, box: ChurnFile -> Box)
    ensures IsSubsequence(Placed(labels, box), labels)
    decreases |labels|
  {
    if labels != [] {
      var n := |labels| - 1;
      PlacedSubsequence(labels[..n], box);
      assert labels == labels[..n] + [labels[n]];
      var kept := Placed(labels[..n], box);
      if Placed(labels, box) == kept {
        SubsequenceOfLonger(kept, labels[..n], labels[n]);
      } else {
        SubsequenceAppend(kept, labels[..n], labels[n]);
      }
    }
  }

  /** One more label in line only ever appends to what is shown. */
  lemma PlacedExtends(labels: seq<ChurnFile>, box: ChurnFile -> Box)
    requires labels != []
    ensures Placed(labels[..|labels| - 1], box) <= Placed(labels, box)
  {
  }

  /** What is kept from a prefix of the line stays kept. */
  lemma {:induction false} PlacedGrows(labels: seq<ChurnFile>, i: nat, box: ChurnFile -> Box)
    requires i <= |labels|
    ensures Placed(labels[..i], box) <= Placed(labels, box)
    decreases |labels|
  {
    if i < |labels| {
      var prefix := labels[..|labels| - 1];
      assert prefix[..i] == labels[..i];
      PlacedGrows(prefix, i, box);
      PlacedExtends(labels, box);
      PrefixTransitive(Placed(labels[..i], box), Placed(prefix, box), Placed(labels, box));
    } else {
      assert labels[..i] == labels;
    }
  }

  /** The label with the highest priority is always shown. */
  lemma FirstLabelShown(labels: seq<ChurnFile>, box: ChurnFile -> Box)
    requires labels != []
    ensures Placed(labels, box) != [] && Placed(labels, box)[0] == labels[0]
  {
    PlacedGrows(labels, 1, box);
    assert labels[..1][..0] == [];
    assert !HitsAny(box(labels[0]), Boxes([], box));
  }

  /** Every label left out overlaps one that is shown, so none could be added. */
  lemma DroppedLabelsOverlap(labels: seq<ChurnFile>, box: ChurnFile -> Box, i: nat)
    requires i < |labels|
    ensures labels[i] in Placed(labels, box) || HitsAny(box(labels[i]), Boxes(Placed(labels, box), box))
  {
    var kept := Placed(labels[..i], box);
    assert labels[..i + 1][..i] == labels[..i];
    var next := Placed(labels[..i + 1], box);
    assert next == Step(kept, labels[i], box);
    PlacedGrows(labels, i + 1, box);
    var all := Placed(labels, box);
    assert next <= all;
    if HitsAny(box(labels[i]), Boxes(kept, box)) {
      HitsAnyExists(box(labels[i]), Boxes(kept, box));
      HitsAnyExists(box(labels[i]), Boxes(all, box));
      var j :| 0 <= j < |kept| && Collides(box(labels[i]), Boxes(kept, box)[j]);
      assert next == kept;
      assert all[j] == kept[j];
      BoxesAt(kept, box, j);
      BoxesAt(all, box, j);
      assert Boxes(all, box)[j] == Boxes(kept, box)[j];
    } else {
      assert next[|kept|] == labels[i];
      assert all[|kept|] == labels[i];
    }
  }

  datatype Point = Point(file: ChurnFile, colour: string)
  datatype Label = Label(text: string, x: int, y: int)
  datatype Chart = Chart(points: seq<Point>, labels: seq<Label>)

  function LabelOf(d: ChurnFile, at: ChurnFile -> (int, int)): Label
  {
    Label(LabelText(d.filePath), at(d).0 + 8, at(d).1 + 3)
  }

  /** The effect: nothing for an empty report; otherwise one point per file and the placed labels. */
  method Render(churn: seq<ChurnFile>, at: ChurnFile -> (int, int)) returns (chart: Option<Chart>)
    ensures chart.None? <==> churn == []
    ensures chart.Some? ==> |chart.value.points| == |churn|
    ensures chart.Some? ==> forall i :: 0 <= i < |churn| ==>
      chart.value.points[i] == Point(churn[i], PointColour(churn[i].category))
    ensures chart.Some? ==> |chart.value.labels| == |Placed(Labels(churn), LabelBoxAt(at))|
    ensures chart.Some? ==> forall k :: 0 <= k < |chart.value.labels| ==>
      chart.value.labels[k] == LabelOf(Placed(Labels(churn), LabelBoxAt(at))[k], at)
  {
    if |churn| == 0 {
      return None;
    }
    var points := seq(|churn|, i requires 0 <= i < |churn| => Point(churn[i], PointColour(churn[i].category)));
    var visible := VisibleLabels(Labels(churn), LabelBoxAt(at));
    var labels := seq(|visible|, k requires 0 <= k < |visible| => LabelOf(visible[k], at));
    chart := Some(Chart(points, labels));
  }

  /** `replace(/[/.\s]/g, '-')` */
  function Sanitise(path: string): (r: string)
    ensures |r| == |path|
    ensures '/' !in r && '.' !in r
    ensures forall i :: 0 <= i < |r| && (path[i] == '/' || path[i] == '.' || IsJsWhitespace(path[i])) ==> r[i] == '-'
    ensures forall i :: 0 <= i < |r| && !(path[i] == '/' || path[i] == '.' || IsJsWhitespace(path[i])) ==> r[i] == path[i]
  {
    seq(|path|, i requires 0 <= i < |path| =>
      if path[i] == '/' || path[i] == '.' || IsJsWhitespace(path[i]) then '-' else path[i])
  }

  function TooltipId(path: string): string
  {
    "pinned-tooltip-" + Sanitise(path)
  }

  /**
   * The click handler as written: `d3.select("#" + id)` throws when the
   * selector does not parse (None); otherwise the lookup is taken to be by
   * exact element id, and the tooltip with that id is removed or appended.
   */
  function ToggledById(ids: set<string>, path: string): (r: Option<set<string>>)
    ensures r.None? <==> SelectorRejected(TooltipId(path))
    ensures r.Some? && TooltipId(path) in ids ==> r.value == ids - {TooltipId(path)}
    ensures r.Some? && TooltipId(path) !in ids ==> r.value == ids + {TooltipId(path)}
  {
    var id := TooltipId(path);
    if SelectorRejected(id) then None
    else if id in ids then Some(ids - {id})
    else Some(ids + {id})
  }

  /**
   * Two different files can share a tooltip id: after clicking the point of
   * "a-b" and then the point of "a/b", no tooltip is pinned.
   */
  lemma SharedTooltipId()
    ensures TooltipId("a/b") == TooltipId("a-b")
    ensures ToggledById({}, "a-b") == Some({TooltipId("a-b")})
    ensures ToggledById({TooltipId("a-b")}, "a/b") == Some({})
  {
    assert Sanitise("a/b") == "a-b" by {
      assert !IsJsWhitespace('a') && !IsJsWhitespace('b');
    }
    assert Sanitise("a-b") == "a-b" by {
      assert !IsJsWhitespace('a') && !IsJsWhitespace('-') && !IsJsWhitespace('b');
    }
    var id := TooltipId("a-b");
    PlainPathSelectorParses("a-b");
    NotRejectedWhenParses(id);
    assert !SelectorRejected(id);
    assert {} + {id} == {id};
  }

  predicate IsCssIdentChar(c: char)
  {
    'a' <= c <= 'z' || 'A' <= c <= 'Z' || '0' <= c <= '9' || c == '-' || c == '_' || c >= '\U{80}'
  }

  /** Whether `#` + id is a selector `d3.select` accepts, for ids that start with a letter and use no escapes. */
  predicate IdSelectorParses(id: string)
  {
    |id| > 0 && !('0' <= id[0] <= '9') && forall i :: 0 <= i < |id| ==> IsCssIdentChar(id[i])
  }

  /** Paths made of letters, digits, '/', '.', '-', '_' and whitespace give ids the selector accepts. */
  lemma PlainPathSelectorParses(path: string)
    requires forall i :: 0 <= i < |path| ==>
      IsCssIdentChar(path[i]) || path[i] == '/' || path[i] == '.' || IsJsWhitespace(path[i])
    ensures IdSelectorParses(TooltipId(path))
  {
    var id := TooltipId(path);
    forall i | 0 <= i < |id|
      ensures IsCssIdentChar(id[i])
    {
      if i >= 15 {
        assert id[i] == Sanitise(path)[i - 15];
      }
    }
  }

  /** A letter, '_' or a non-ASCII character may start a CSS identifier. */
  predicate IsIdentStart(c: char)
  {
    'a' <= c <= 'z' || 'A' <= c <= 'Z' || c == '_' || c >= '\U{80}'
  }

  /** `s` begins with a CSS identifier. */
  predicate StartsIdent(s: string)
  {
    |s| > 0 && (IsIdentStart(s[0]) || (s[0] == '-' && |s| > 1 && (IsIdentStart(s[1]) || s[1] == '-')))
  }

  /**
   * `#` + id is certainly not a selector, so `d3.select` throws a SyntaxError.
   * Without ':' there is no functional pseudo-class, so a '(' cannot be
   * placed; and an identifier (a type selector) cannot follow the ']' that
   * closes an attribute selector. Quotes and backslashes are excluded so
   * that neither character can sit inside a string or an escape.
   */
  predicate SelectorRejected(id: string)
  {
    ':' !in id && '"' !in id && '\'' !in id && '\\' !in id &&
    ('(' in id || exists i :: 0 <= i < |id| - 1 && id[i] == ']' && StartsIdent(id[i + 1..]))
  }

  /** An id that forms a plain `#ident` selector is not rejected. */
  lemma NotRejectedWhenParses(id: string)
    requires IdSelectorParses(id)
    ensures !SelectorRejected(id)
  {
    assert forall i :: 0 <= i < |id| ==> id[i] != '(' && id[i] != ']';
  }

  /** The sanitiser only ever writes '-', so a character other than '-' is in the id iff it is in the path. */
  lemma SanitiseKeeps(path: string, c: char)
    requires c != '-' && c != '/' && c != '.' && !IsJsWhitespace(c)
    ensures c in Sanitise(path) <==> c in path
  {
    var r := Sanitise(path);
    if c in r {
      var j :| 0 <= j < |r| && r[j] == c;
      assert path[j] == c;
    }
    if c in path {
      var j :| 0 <= j < |path| && path[j] == c;
      assert r[j] == c;
    }
  }

  lemma TooltipIdKeeps(path: string, c: char)
    requires c != '-' && c != '/' && c != '.' && !IsJsWhitespace(c)
    requires c !in "pinned-tooltip-"
    ensures c in TooltipId(path) <==> c in path
  {
    SanitiseKeeps(path, c);
  }

  /** The characters that make a selector a string, an escape or a pseudo-class are absent. */
  predicate NoSelectorSpecials(path: string)
  {
    ':' !in path && '"' !in path && '\'' !in path && '\\' !in path
  }

  lemma SpecialsConcat(a: string, b: string)
    requires NoSelectorSpecials(a) && NoSelectorSpecials(b)
    ensures NoSelectorSpecials(a + b)
  {
  }

  lemma SpecialsKept(path: string)
    requires NoSelectorSpecials(path)
    ensures ':' !in TooltipId(path) && '"' !in TooltipId(path)
    ensures '\'' !in TooltipId(path) && '\\' !in TooltipId(path)
  {
    TooltipIdKeeps(path, ':');
    TooltipIdKeeps(path, '"');
    TooltipIdKeeps(path, '\'');
    TooltipIdKeeps(path, '\\');
  }

  /**
   * A path segment that ends in ']' and is followed by one starting with a
   * letter, as in a dynamic route directory, gives a rejected selector:
   * the '/' becomes '-', and "-" + letter begins an identifier.
   */
  lemma {:induction false} BracketSegmentRejected(path: string, i: nat)
    requires NoSelectorSpecials(path)
    requires i + 2 < |path| && path[i] == ']' && path[i + 1] == '/'
    requires 'a' <= path[i + 2] <= 'z' || 'A' <= path[i + 2] <= 'Z'
    ensures SelectorRejected(TooltipId(path))
  {
    var id := TooltipId(path);
    SpecialsKept(path);
    var k := 15 + i;
    assert id[k] == Sanitise(path)[i] == ']';
    assert id[k + 1] == Sanitise(path)[i + 1] == '-';
    assert id[k + 2] == Sanitise(path)[i + 2] == path[i + 2];
    assert id[k + 1..][0] == '-' && id[k + 1..][1] == path[i + 2];
    assert StartsIdent(id[k + 1..]);
  }

  /** A '(' in the path, as in a route group directory, gives a rejected selector. */
  lemma ParenthesisRejected(path: string)
    requires NoSelectorSpecials(path)
    requires '(' in path
    ensures SelectorRejected(TooltipId(path))
  {
    SpecialsKept(path);
    TooltipIdKeeps(path, '(');
  }

  lemma SourceDirectoryPlain()
    ensures NoSelectorSpecials("src/app/")
  {
  }

  lemma RepositoryDirectoryPlain()
    ensures NoSelectorSpecials("repository/")
  {
  }

  lemma DynamicPagePlain()
    ensures NoSelectorSpecials("[id]/page.tsx")
  {
  }

  lemma DynamicRoutePlain()
    ensures NoSelectorSpecials("src/app/repository/[id]/page.tsx")
  {
    SourceDirectoryPlain();
    RepositoryDirectoryPlain();
    DynamicPagePlain();
    SpecialsConcat("src/app/", "repository/");
    SpecialsConcat("src/app/repository/", "[id]/page.tsx");
    assert "src/app/repository/[id]/page.tsx" == "src/app/" + "repository/" + "[id]/page.tsx";
  }

  /**
   * The click handler throws for a file under a dynamic route directory, so
   * its tooltip can never be pinned.
   */
  lemma BracketPathThrows()
    ensures ToggledById({}, "src/app/repository/[id]/page.tsx") == None
  {
    var dynamic := "src/app/repository/[id]/page.tsx";
    DynamicRoutePlain();
    assert dynamic[22] == ']' && dynamic[23] == '/' && dynamic[24] == 'p';
    BracketSegmentRejected(dynamic, 22);
  }

  lemma GroupPagePlain()
    ensures NoSelectorSpecials("(auth)/login/page.tsx")
  {
  }

  lemma RouteGroupPlain()
    ensures NoSelectorSpecials("src/app/(auth)/login/page.tsx")
  {
    SourceDirectoryPlain();
    GroupPagePlain();
    SpecialsConcat("src/app/", "(auth)/login/page.tsx");
    assert "src/app/(auth)/login/page.tsx" == "src/app/" + "(auth)/login/page.tsx";
  }

  /** The same holds for a file under a route group directory. */
  lemma RouteGroupPathThrows()
    ensures ToggledById({}, "src/app/(auth)/login/page.tsx") == None
  {
    var group := "src/app/(auth)/login/page.tsx";
    RouteGroupPlain();
    assert group[8] == '(';
    ParenthesisRejected(group);
  }

  /** A click pins or unpins the tooltip of that file only. */
  function TogglePath(pinned: set<string>, path: string): (r: set<string>)
    ensures path in r <==> path !in pinned
    ensures forall other :: other != path ==> (other in r <==> other in pinned)
  {
    if path in pinned then pinned - {path} else pinned + {path}
  }

  /** Clicking the same point twice restores the pinned tooltips. */
  lemma ToggleTwice(pinned: set<string>, path: string)
    ensures TogglePath(TogglePath(pinned, path), path) == pinned
  {
  }

  /** The pinned tooltips, identified by the file they show. */
  class PinnedTooltips {
    var paths: set<string>

    constructor ()
      ensures paths == {}
    {
      paths := {};
    }

    /** A click on the point of `d`. */
    method ClickPoint(d: ChurnFile)
      modifies this
      ensures paths == TogglePath(old(paths), d.filePath)
    {
      paths := TogglePath(paths, d.filePath);
    }

    /** A click on the pinned tooltip itself removes it. */
    method ClickTooltip(path: string)
      modifies this
      ensures paths == old(paths) - {path}
    {
      paths := paths - {path};
    }

    /** The name in a pinned tooltip's heading. */
    function Heading(d: ChurnFile): (heading: string)
      reads this
      requires d.filePath in paths
      ensures heading == Name(d.filePath)
    {
      Name(d.filePath)
    }
  }
}
