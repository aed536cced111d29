/**
 * The layout of the login screen as constraint tables: the outer rows for
 * the key menu and the status line, the row and column that hold the
 * panel for each configured panel position, and the slots inside the panel.
 * Solving the constraints into rectangles is outside the model.
 */
module Chunks {
  datatype Constraint = Length(n: nat) | Min(n: nat)

  datatype PanelPosition =
    | Center | TopLeft | TopCenter | TopRight | CenterLeft | CenterRight
    | BottomLeft | BottomCenter | BottomRight

  const PANEL_WIDTH: nat := 50
  const PANEL_HEIGHT: nat := 13

  /** The outer rows: key menu, the middle content, status message. */
  const OuterConstraints: seq<Constraint> := [Length(1), Min(0), Length(1)]
  const KEY_MENU_SLOT: nat := 0
  const STATUS_SLOT: nat := 2

  /** The rows inside the panel: switcher, spacer, username, spacer, password, filler. */
  const PanelConstraints: seq<Constraint> := [Length(3), Length(1), Length(3), Length(1), Length(3), Min(0)]
  const SWITCHER_SLOT: nat := 0
  const USERNAME_SLOT: nat := 2
  const PASSWORD_SLOT: nat := 4

  /**
   * The vertical constraints that place the panel's row: three rows, and the
   * panel's height sits in the row the position names and in no other.
   */
  function VConstraints(p: PanelPosition): (c: seq<Constraint>)
    ensures |c| == 3
    ensures c[RowIndex(RowOf(p))] == Length(PANEL_HEIGHT)
    ensures forall j :: 0 <= j < 3 && j != RowIndex(RowOf(p)) ==> c[j] != Length(PANEL_HEIGHT)
  {
    match p
    case Center => [Min(0), Length(PANEL_HEIGHT), Min(0)]
    case TopLeft => [Length(PANEL_HEIGHT), Min(0), Length(0)]
    case TopCenter => [Length(PANEL_HEIGHT), Min(0), Length(0)]
    case TopRight => [Length(PANEL_HEIGHT), Min(0), Length(0)]
    case CenterLeft => [Min(0), Length(PANEL_HEIGHT), Min(0)]
    case CenterRight => [Min(0), Length(PANEL_HEIGHT), Min(0)]
    case BottomLeft => [Length(0), Min(0), Length(PANEL_HEIGHT)]
    case BottomCenter => [Length(0), Min(0), Length(PANEL_HEIGHT)]
    case BottomRight => [Length(0), Min(0), Length(PANEL_HEIGHT)]
  }

  /**
   * The horizontal constraints that place the panel within its row: three
   * columns, and the panel's width sits in the column the position names and
   * in no other.
   */
  function HConstraints(p: PanelPosition): (c: seq<Constraint>)
    ensures |c| == 3
    ensures c[ColumnIndex(ColumnOf(p))] == Length(PANEL_WIDTH)
    ensures forall j :: 0 <= j < 3 && j != ColumnIndex(ColumnOf(p)) ==> c[j] != Length(PANEL_WIDTH)
  {
    match p
    case Center => [Min(0), Length(PANEL_WIDTH), Min(0)]
    case TopLeft => [Length(PANEL_WIDTH), Min(0), Length(0)]
    case TopCenter => [Min(0), Length(PANEL_WIDTH), Min(0)]
    case TopRight => [Length(0), Min(0), Length(PANEL_WIDTH)]
    case CenterLeft => [Length(PANEL_WIDTH), Min(0), Length(0)]
    case CenterRight => [Length(0), Min(0), Length(PANEL_WIDTH)]
    case BottomLeft => [Length(PANEL_WIDTH), Min(0), Length(0)]
    case BottomCenter => [Min(0), Length(PANEL_WIDTH), Min(0)]
    case BottomRight => [Length(0), Min(0), Length(PANEL_WIDTH)]
  }

  /** The vertical chunk that holds the panel: the position's row, whose constraint is the panel's height. */
  function VIdx(p: PanelPosition): (i: nat)
    ensures i < 3 && i == RowIndex(RowOf(p))
    ensures VConstraints(p)[i] == Length(PANEL_HEIGHT)
  {
    match p
    case Center | CenterLeft | CenterRight => 1
    case TopLeft | TopCenter | TopRight => 0
    case BottomLeft | BottomCenter | BottomRight => 2
  }

  /** The horizontal chunk that holds the panel: the position's column, whose constraint is the panel's width. */
  function HIdx(p: PanelPosition): (i: nat)
    ensures i < 3 && i == ColumnIndex(ColumnOf(p))
    ensures HConstraints(p)[i] == Length(PANEL_WIDTH)
  {
    match p
    case Center | TopCenter | BottomCenter => 1
    case TopLeft | CenterLeft | BottomLeft => 0
    case TopRight | CenterRight | BottomRight => 2
  }

  // An independent reading of a position as a row and a column.

  datatype Row = Top | Middle | Bottom
  datatype Column = Left | Centre | Right

  function RowOf(p: PanelPosition): Row {
    if p in {TopLeft, TopCenter, TopRight} then Top
    else if p in {BottomLeft, BottomCenter, BottomRight} then Bottom
    else Middle
  }

  function ColumnOf(p: PanelPosition): Column {
    if p in {TopLeft, CenterLeft, BottomLeft} then Left
    else if p in {TopRight, CenterRight, BottomRight} then Right
    else Centre
  }

  function RowIndex(r: Row): (i: nat)
    ensures i < 3
  {
    match r
    case Top => 0
    case Middle => 1
    case Bottom => 2
  }

  function ColumnIndex(c: Column): (i: nat)
    ensures i < 3
  {
    match c
    case Left => 0
    case Centre => 1
    case Right => 2
  }

  /** Every row and column pair names exactly one position. */
  lemma PositionsAreRowColumnPairs(p: PanelPosition, q: PanelPosition)
    ensures RowOf(p) == RowOf(q) && ColumnOf(p) == ColumnOf(q) ==> p == q
  {
  }

  /** How often `c` occurs in `s`. */
  function Count(s: seq<Constraint>, c: Constraint): (n: nat)
    ensures n == multiset(s)[c]
  {
    if s == [] then 0
    else
      assert s == [s[0]] + s[1..];
      (if s[0] == c then 1 else 0) + Count(s[1..], c)
  }

  lemma CountThree(s: seq<Constraint>, c: Constraint)
    requires |s| == 3
    ensures Count(s, c) == (if s[0] == c then 1 else 0) + (if s[1] == c then 1 else 0) + (if s[2] == c then 1 else 0)
  {
    var t := s[1..];
    var u := t[1..];
    assert u[1..] == [];
    assert Count(u, c) == (if u[0] == c then 1 else 0) + Count(u[1..], c);
    assert Count(t, c) == (if t[0] == c then 1 else 0) + Count(u, c);
  }

  /**
   * For every position, the chosen vertical chunk is the panel's height and
   * the chosen horizontal chunk is the panel's width; each size occurs once
   * in its table, and the chunks follow the position's row and column.
   */
  lemma PanelSlotIsFixedSize(p: PanelPosition)
    ensures |VConstraints(p)| == 3 && |HConstraints(p)| == 3
    ensures VConstraints(p)[VIdx(p)] == Length(PANEL_HEIGHT)
    ensures HConstraints(p)[HIdx(p)] == Length(PANEL_WIDTH)
    ensures Count(VConstraints(p), Length(PANEL_HEIGHT)) == 1
    ensures Count(HConstraints(p), Length(PANEL_WIDTH)) == 1
    ensures VIdx(p) == RowIndex(RowOf(p)) && HIdx(p) == ColumnIndex(ColumnOf(p))
  {
    CountThree(VConstraints(p), Length(PANEL_HEIGHT));
    CountThree(HConstraints(p), Length(PANEL_WIDTH));
  }

  /** The horizontal table depends only on the column, and the vertical one only on the row. */
  lemma TablesFollowRowAndColumn(p: PanelPosition, q: PanelPosition)
    ensures ColumnOf(p) == ColumnOf(q) ==> HConstraints(p) == HConstraints(q)
    ensures RowOf(p) == RowOf(q) ==> VConstraints(p) == VConstraints(q)
  {
  }

  /** The three input widgets get three-line slots, separated by one-line spacers. */
  lemma PanelSlots()
    ensures PanelConstraints[SWITCHER_SLOT] == Length(3)
    ensures PanelConstraints[USERNAME_SLOT] == Length(3)
    ensures PanelConstraints[PASSWORD_SLOT] == Length(3)
    ensures PanelConstraints[SWITCHER_SLOT + 1] == Length(1) && PanelConstraints[USERNAME_SLOT + 1] == Length(1)
    ensures OuterConstraints[KEY_MENU_SLOT] == Length(1) && OuterConstraints[STATUS_SLOT] == Length(1)
  {
  }
}
