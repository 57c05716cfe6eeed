/** Greedy placement of the labels of branched mechanism and guidance arrows on an IDEF0 diagram. */
module Labels {
  import opened Common

  datatype Line = Line(x1: real, y1: real)

  /** The lines that carry one name, in drawing order. */
  datatype Group = Group(name: string, lines: seq<Line>)

  datatype Box = Box(xMin: real, xMax: real, yMin: real, yMax: real)

  datatype Entry = Entry(name: string, x: real, y: real, row: nat)

  /** Mechanism labels move down from their line, guidance labels move up. */
  datatype Side = Mechanisms | Guidance

  const ROW_STEP: real := 18.0
  const BOX_HEIGHT: real := 16.0

  function BaseY(side: Side, line: Line): real {
    if side == Mechanisms then line.y1 - 5.0 else line.y1 + 15.0
  }

  function RowY(side: Side, baseY: real, row: nat): real {
    if side == Mechanisms then baseY + row as real * ROW_STEP else baseY - row as real * ROW_STEP
  }

  function LabelBox(name: string, x: real, y: real): (b: Box)
    ensures b.yMax - b.yMin == BOX_HEIGHT
  {
    var text := |name| as real * 7.5;
    var w := if text < 36.0 then 36.0 else text;
    Box(x - w / 2.0 - 6.0, x + w / 2.0 + 6.0, y - 14.0, y + 2.0)
  }

  predicate Overlaps(a: Box, b: Box) {
    a.xMin < b.xMax && a.xMax > b.xMin && a.yMin < b.yMax && a.yMax > b.yMin
  }

  /** A label's box is centred on its anchor and has room for seven and a half units a character, and never less than 36. */
  lemma LabelBoxGeometry(name: string, x: real, y: real)
    ensures var b := LabelBox(name, x, y);
      && b.xMin + b.xMax == 2.0 * x && b.xMax - b.xMin - 12.0 >= 36.0 && b.xMax - b.xMin - 12.0 >= |name| as real * 7.5
      && (b.xMax - b.xMin - 12.0 == 36.0 || b.xMax - b.xMin - 12.0 == |name| as real * 7.5)
      && b.yMin == y - 14.0 && b.yMax == y + 2.0
  {
  }

  /** Boxes overlap exactly if some point lies inside both. */
  lemma OverlapExactly(a: Box, b: Box)
    requires a.xMin < a.xMax && a.yMin < a.yMax && b.xMin < b.xMax && b.yMin < b.yMax
    ensures Overlaps(a, b) <==> exists x: real, y: real :: Inside(a, x, y) && Inside(b, x, y)
  {
    if Overlaps(a, b) {
      var left, right := if a.xMin < b.xMin then b.xMin else a.xMin, if a.xMax < b.xMax then a.xMax else b.xMax;
      var low, high := if a.yMin < b.yMin then b.yMin else a.yMin, if a.yMax < b.yMax then a.yMax else b.yMax;
      assert Inside(a, (left + right) / 2.0, (low + high) / 2.0) && Inside(b, (left + right) / 2.0, (low + high) / 2.0);
    }
  }

  predicate Inside(b: Box, x: real, y: real) {
    b.xMin < x < b.xMax && b.yMin < y < b.yMax
  }

  predicate Blocked(placed: seq<Box>, box: Box) {
    exists i | 0 <= i < |placed| :: Overlaps(box, placed[i])
  }

  predicate Uniform(placed: seq<Box>) {
    forall i | 0 <= i < |placed| :: placed[i].yMax - placed[i].yMin == BOX_HEIGHT
  }

  function RowBox(side: Side, name: string, x: real, baseY: real, row: nat): Box {
    LabelBox(name, x, RowY(side, baseY, row))
  }

  // ---- One placed box blocks at most two rows, so some row among the first 2n + 1 is free. ----

  ghost function RowsBlockedBy(p: Box, side: Side, name: string, x: real, baseY: real, k: nat): set<nat> {
    set r: nat | r <= k && Overlaps(RowBox(side, name, x, baseY, r), p)
  }

  lemma AtMostTwoRows(p: Box, side: Side, name: string, x: real, baseY: real, k: nat)
    requires p.yMax - p.yMin == BOX_HEIGHT
    ensures |RowsBlockedBy(p, side, name, x, baseY, k)| <= 2
  {
    var rows := RowsBlockedBy(p, side, name, x, baseY, k);
    if rows != {} {
      var r :| r in rows;
      if r + 1 in rows {
        assert rows <= {r, r + 1} by {
          forall q | q in rows ensures q == r || q == r + 1 {
            RowsApart(p, side, name, x, baseY, q, r);
            RowsApart(p, side, name, x, baseY, q, r + 1);
          }
        }
        SubsetSize(rows, {r, r + 1});
      } else if r > 0 && r - 1 in rows {
        assert rows <= {r - 1, r} by {
          forall q | q in rows ensures q == r - 1 || q == r {
            RowsApart(p, side, name, x, baseY, q, r);
          }
        }
        SubsetSize(rows, {r - 1, r});
      } else {
        assert rows <= {r} by {
          forall q | q in rows ensures q == r {
            RowsApart(p, side, name, x, baseY, q, r);
          }
        }
        SubsetSize(rows, {r});
      }
    }
  }

  lemma RowsApart(p: Box, side: Side, name: string, x: real, baseY: real, q: nat, r: nat)
    requires p.yMax - p.yMin == BOX_HEIGHT
    requires Overlaps(RowBox(side, name, x, baseY, q), p)
    requires Overlaps(RowBox(side, name, x, baseY, r), p)
    ensures q <= r + 1 && r <= q + 1
  {
    var a, b := q as real, r as real;
    assert -32.0 < (a - b) * ROW_STEP < 32.0;
    assert -2.0 < a - b < 2.0;
  }

  lemma SubsetSize<T>(a: set<T>, b: set<T>)
    requires a <= b
    ensures |a| <= |b|
  {
    assert b == a + (b - a);
  }

  ghost function BlockedRows(placed: seq<Box>, side: Side, name: string, x: real, baseY: real, k: nat): set<nat> {
    if placed == [] then {}
    else RowsBlockedBy(placed[0], side, name, x, baseY, k) + BlockedRows(placed[1..], side, name, x, baseY, k)
  }

  lemma {:induction false} BlockedRowsSize(placed: seq<Box>, side: Side, name: string, x: real, baseY: real, k: nat)
    requires Uniform(placed)
    ensures |BlockedRows(placed, side, name, x, baseY, k)| <= 2 * |placed|
    ensures forall r: nat | r <= k && Blocked(placed, RowBox(side, name, x, baseY, r)) ::
      r in BlockedRows(placed, side, name, x, baseY, k)
  {
    if placed != [] {
      var first, rest := placed[0], placed[1..];
      AtMostTwoRows(first, side, name, x, baseY, k);
      BlockedRowsSize(rest, side, name, x, baseY, k);
      forall r: nat | r <= k && Blocked(placed, RowBox(side, name, x, baseY, r))
        ensures r in BlockedRows(placed, side, name, x, baseY, k)
      {
        var box := RowBox(side, name, x, baseY, r);
        var i :| 0 <= i < |placed| && Overlaps(box, placed[i]);
        if i > 0 {
          assert Overlaps(box, rest[i - 1]);
        }
      }
    }
  }

  ghost function FirstRows(n: nat): (rows: set<nat>)
    ensures |rows| == n
    ensures forall r :: r in rows <==> 0 <= r < n
  {
    if n == 0 then {} else FirstRows(n - 1) + {n - 1}
  }

  /** The pigeonhole: among rows 0 to 2n, n placed boxes leave one free. */
  lemma FreeRow(placed: seq<Box>, side: Side, name: string, x: real, baseY: real) returns (row: nat)
    requires Uniform(placed)
    ensures row <= 2 * |placed|
    ensures !Blocked(placed, RowBox(side, name, x, baseY, row))
  {
    var k := 2 * |placed|;
    var all := FirstRows(k + 1);
    var blocked := BlockedRows(placed, side, name, x, baseY, k);
    BlockedRowsSize(placed, side, name, x, baseY, k);
    if all <= blocked {
      SubsetSize(all, blocked);
      assert false;
    }
    row :| row in all && row !in blocked;
  }

  /** The inner loop: the row it stops at is the first one that no placed box blocks. */
  method PlaceLabel(placed: seq<Box>, side: Side, name: string, x: real, baseY: real) returns (row: nat, y: real)
    requires Uniform(placed)
    ensures y == RowY(side, baseY, row)
    ensures !Blocked(placed, LabelBox(name, x, y))
    ensures forall r: nat | r < row :: Blocked(placed, RowBox(side, name, x, baseY, r))
    ensures row <= 2 * |placed|
  {
    ghost var free := FreeRow(placed, side, name, x, baseY);
    row, y := 0, baseY;
    while Blocked(placed, LabelBox(name, x, y))
      invariant y == RowY(side, baseY, row)
      invariant forall r: nat | r < row :: Blocked(placed, RowBox(side, name, x, baseY, r))
      invariant row <= free
      decreases free - row
    {
      row := row + 1;
      y := RowY(side, baseY, row);
    }
  }

  /**
   * The first box of a mechanism label ends 3 above the start of its line and every further one is 18 lower; that of a
   * guidance label begins 1 below it and every further one is 18 higher.
   */
  lemma RowsLeaveTheLine(side: Side, name: string, line: Line, row: nat)
    ensures var b := RowBox(side, name, line.x1, BaseY(side, line), row);
      match side
      case Mechanisms => b.yMax == line.y1 - 3.0 + 18.0 * row as real
      case Guidance => b.yMin == line.y1 + 1.0 - 18.0 * row as real
  {
  }

  predicate IsLeftmost(lines: seq<Line>, line: Line) {
    line in lines && forall i | 0 <= i < |lines| :: line.x1 <= lines[i].x1
  }

  method LeftmostLine(lines: seq<Line>) returns (line: Line)
    requires lines != []
    ensures IsLeftmost(lines, line)
  {
    line := lines[0];
    for i := 1 to |lines|
      invariant line in lines && forall j | 0 <= j < i :: line.x1 <= lines[j].x1
    {
      if lines[i].x1 < line.x1 {
        line := lines[i];
      }
    }
  }

  /** The labels that keep their place: one per group, at its first line, except branched groups when branching is drawn. */
  function FixedBoxes(groups: seq<Group>, branching: bool, side: Side): (boxes: seq<Box>)
    requires forall i | 0 <= i < |groups| :: groups[i].lines != []
    ensures |boxes| <= |groups| && Uniform(boxes)
  {
    if groups == [] then []
    else
      var init, g := groups[..|groups| - 1], groups[|groups| - 1];
      if |g.lines| > 1 && branching then FixedBoxes(init, branching, side)
      else FixedBoxes(init, branching, side) + [LabelBox(g.name, g.lines[0].x1, BaseY(side, g.lines[0]))]
  }

  /** A label keeps its place exactly if its group has one line or branching is not drawn. */
  lemma {:induction false} FixedExactly(groups: seq<Group>, branching: bool, side: Side, b: Box)
    requires forall i | 0 <= i < |groups| :: groups[i].lines != []
    ensures b in FixedBoxes(groups, branching, side) <==>
            exists i | 0 <= i < |groups| :: (|groups[i].lines| == 1 || !branching) && b == FirstBox(groups[i], side)
  {
    if groups != [] {
      var n := |groups| - 1;
      FixedExactly(groups[..n], branching, side, b);
      assert forall i | 0 <= i < n :: groups[..n][i] == groups[i];
      if i :| 0 <= i < n && (|groups[i].lines| == 1 || !branching) && b == FirstBox(groups[i], side) {
        assert b == FirstBox(groups[..n][i], side);
      }
    }
  }

  /** The box of a group's label at its first line. */
  function FirstBox(g: Group, side: Side): Box
    requires g.lines != []
  {
    RowBox(side, g.name, g.lines[0].x1, BaseY(side, g.lines[0]), 0)
  }

  function EntryBox(e: Entry): Box {
    LabelBox(e.name, e.x, e.y)
  }

  function EntryBoxes(entries: seq<Entry>): (boxes: seq<Box>)
    ensures |boxes| == |entries| && Uniform(boxes)
  {
    seq(|entries|, i requires 0 <= i < |entries| => EntryBox(entries[i]))
  }

  /** What is promised of the entry placed after `placed` for a group. */
  ghost predicate WellPlaced(placed: seq<Box>, side: Side, g: Group, e: Entry) {
    && e.name == g.name
    && !Blocked(placed, EntryBox(e))
    && e.row <= 2 * |placed|
    && exists line :: AtFirstFreeRow(placed, side, g, e, line)
  }

  ghost predicate AtFirstFreeRow(placed: seq<Box>, side: Side, g: Group, e: Entry, line: Line) {
    && IsLeftmost(g.lines, line)
    && e.x == line.x1
    && e.y == RowY(side, BaseY(side, line), e.row)
    && forall r: nat | r < e.row :: Blocked(placed, RowBox(side, g.name, e.x, BaseY(side, line), r))
  }

  /** `order` lists the branched groups, each once. */
  ghost predicate ListsBranched(groups: seq<Group>, order: seq<nat>) {
    && Distinct(order)
    && (forall k | 0 <= k < |order| :: order[k] < |groups| && |groups[order[k]].lines| > 1)
    && (forall i | 0 <= i < |groups| && |groups[i].lines| > 1 :: i in order)
  }

  /**
   The whole layout, for whatever order the branched groups are visited in. Each entry sits at the first row
   that neither a fixed label nor an earlier entry blocks.
   */
  method ComputeLabelsLayout(groups: seq<Group>, branching: bool, side: Side, order: seq<nat>) returns (layout: seq<Entry>)
    requires forall i | 0 <= i < |groups| :: groups[i].lines != []
    requires ListsBranched(groups, order)
    ensures |layout| == |order|
    ensures forall k | 0 <= k < |layout| ::
      WellPlaced(FixedBoxes(groups, branching, side) + EntryBoxes(layout[..k]), side, groups[order[k]], layout[k])
  {
    layout := [];
    if order == [] && !branching {
      return;
    }

    var placed: seq<Box> := [];
    for i := 0 to |groups|
      invariant placed == FixedBoxes(groups[..i], branching, side)
    {
      var g := groups[i];
      assert groups[..i + 1][..i] == groups[..i];
      if !(|g.lines| > 1 && branching) {
        placed := placed + [LabelBox(g.name, g.lines[0].x1, BaseY(side, g.lines[0]))];
      }
    }
    assert groups[..|groups|] == groups;

    ghost var fixed := placed;
    for k := 0 to |order|
      invariant |layout| == k
      invariant placed == fixed + EntryBoxes(layout)
      invariant forall j | 0 <= j < k :: WellPlaced(fixed + EntryBoxes(layout[..j]), side, groups[order[j]], layout[j])
    {
      var g := groups[order[k]];
      var primary := LeftmostLine(g.lines);
      var row, y := PlaceLabel(placed, side, g.name, primary.x1, BaseY(side, primary));
      var e := Entry(g.name, primary.x1, y, row);
      assert AtFirstFreeRow(placed, side, g, e, primary);
      placed := placed + [EntryBox(e)];
      ghost var before := layout;
      layout := layout + [e];
      assert layout[..k] == before;
      assert forall j | 0 <= j < k :: layout[..j] == before[..j];
      assert EntryBoxes(layout) == EntryBoxes(before) + [EntryBox(e)];
    }
  }

  method ComputeMechanismLabelsLayout(groups: seq<Group>, branching: bool, order: seq<nat>) returns (layout: seq<Entry>)
    requires forall i | 0 <= i < |groups| :: groups[i].lines != []
    requires ListsBranched(groups, order)
    ensures |layout| == |order|
    ensures PairwiseClear(FixedBoxes(groups, branching, Mechanisms), layout)
    ensures forall k | 0 <= k < |layout| :: layout[k].row <= 2 * (|groups| + k)
  {
    layout := ComputeLabelsLayout(groups, branching, Mechanisms, order);
    EntriesAreClear(groups, branching, Mechanisms, order, layout);
  }

  method ComputeGuidanceLabelsLayout(groups: seq<Group>, branching: bool, order: seq<nat>) returns (layout: seq<Entry>)
    requires forall i | 0 <= i < |groups| :: groups[i].lines != []
    requires ListsBranched(groups, order)
    ensures |layout| == |order|
    ensures PairwiseClear(FixedBoxes(groups, branching, Guidance), layout)
    ensures forall k | 0 <= k < |layout| :: layout[k].row <= 2 * (|groups| + k)
  {
    layout := ComputeLabelsLayout(groups, branching, Guidance, order);
    EntriesAreClear(groups, branching, Guidance, order, layout);
  }

  /** No entry's box overlaps a fixed box or another entry's box. */
  ghost predicate PairwiseClear(fixed: seq<Box>, layout: seq<Entry>) {
    && (forall k, i | 0 <= k < |layout| && 0 <= i < |fixed| :: !Overlaps(EntryBox(layout[k]), fixed[i]))
    && (forall j, k | 0 <= j < k < |layout| :: !Overlaps(EntryBox(layout[j]), EntryBox(layout[k])))
  }

  lemma EntriesAreClear(groups: seq<Group>, branching: bool, side: Side, order: seq<nat>, layout: seq<Entry>)
    requires forall i | 0 <= i < |groups| :: groups[i].lines != []
    requires |layout| == |order| && forall k | 0 <= k < |order| :: order[k] < |groups|
    requires forall k | 0 <= k < |layout| ::
      WellPlaced(FixedBoxes(groups, branching, side) + EntryBoxes(layout[..k]), side, groups[order[k]], layout[k])
    ensures PairwiseClear(FixedBoxes(groups, branching, side), layout)
    ensures forall k | 0 <= k < |layout| :: layout[k].row <= 2 * (|groups| + k)
  {
    var fixed := FixedBoxes(groups, branching, side);
    forall k, i | 0 <= k < |layout| && 0 <= i < |fixed| ensures !Overlaps(EntryBox(layout[k]), fixed[i]) {
      var placed := fixed + EntryBoxes(layout[..k]);
      assert WellPlaced(placed, side, groups[order[k]], layout[k]);
      assert placed[i] == fixed[i];
    }
    forall j, k | 0 <= j < k < |layout| ensures !Overlaps(EntryBox(layout[j]), EntryBox(layout[k])) {
      var placed := fixed + EntryBoxes(layout[..k]);
      assert WellPlaced(placed, side, groups[order[k]], layout[k]);
      assert placed[|fixed| + j] == EntryBox(layout[j]);
    }
  }
}
