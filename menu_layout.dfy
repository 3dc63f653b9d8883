/**
 * The two-column layout of the main menu. The N labels, in index order, are
 * split into a left column of ceil(N/2) labels and a right column of the
 * rest; every right label starts at the same display column, four columns
 * past the widest left label.
 */
module MenuLayout {
  import opened TerminalWidth

  /** Columns kept free between the widest left label and the right column. */
  const Gutter: nat := 4

  /**
   * The number of labels in the left column, rounded up: the left column is
   * never shorter, and at most one longer, than the right one.
   */
  function LeftCount(n: nat): (left: nat)
    ensures left <= n
    ensures n - left <= left <= n - left + 1
  {
    (n + 1) / 2
  }

  /**
   * A left label followed by spaces up to display column `column`: the label
   * stays in front and the padded text ends exactly at that column.
   */
  function Pad(cell: string, column: nat): (padded: string)
    requires DisplayWidthOf(cell) <= column
    ensures |cell| <= |padded| && padded[..|cell|] == cell
    ensures DisplayWidthOf(padded) == column
  {
    DisplayWidthAppendSpaces(cell, column - DisplayWidthOf(cell));
    cell + Spaces(column - DisplayWidthOf(cell))
  }

  /** The widest of `labels`, 0 when there are none (`max_left_width`). */
  method MaxDisplayWidth(labels: seq<string>) returns (maxWidth: nat)
    ensures forall j :: 0 <= j < |labels| ==> DisplayWidthOf(labels[j]) <= maxWidth
    ensures |labels| > 0 ==> exists j :: 0 <= j < |labels| && DisplayWidthOf(labels[j]) == maxWidth
    ensures |labels| == 0 ==> maxWidth == 0
  {
    maxWidth := 0;
    for k := 0 to |labels|
      invariant forall j :: 0 <= j < k ==> DisplayWidthOf(labels[j]) <= maxWidth
      invariant k > 0 ==> exists j :: 0 <= j < k && DisplayWidthOf(labels[j]) == maxWidth
      invariant k == 0 ==> maxWidth == 0
    {
      var width := DisplayWidth(labels[k]);
      if width > maxWidth {
        maxWidth := width;
      }
    }
  }

  /** The spaces to print after each left label so that the right column starts at `rightStart` (`spaces_list`). */
  method SpacesBeforeRight(leftMenu: seq<string>, rightStart: nat) returns (spacesList: seq<int>)
    ensures |spacesList| == |leftMenu|
    ensures forall j :: 0 <= j < |leftMenu| ==> DisplayWidthOf(leftMenu[j]) + spacesList[j] == rightStart
  {
    spacesList := [];
    for i := 0 to |leftMenu|
      invariant |spacesList| == i
      invariant forall j :: 0 <= j < i ==> DisplayWidthOf(leftMenu[j]) + spacesList[j] == rightStart
    {
      if i < |leftMenu| {
        var leftWidth := DisplayWidth(leftMenu[i]);
        var spaces := rightStart - leftWidth;
        spacesList := spacesList + [spaces];
      }
    }
  }

  /**
   * The printing loop of `print_menu`: row i is left label i, then, when
   * there is a right label i, `spaces[i]` spaces and that label.
   */
  method PrintRows(leftMenu: seq<string>, rightMenu: seq<string>, spacesList: seq<int>)
    returns (lines: seq<string>)
    requires |rightMenu| <= |leftMenu| == |spacesList|
    requires forall j :: 0 <= j < |spacesList| ==> spacesList[j] >= 0
    ensures |lines| == |leftMenu|
    ensures forall j :: 0 <= j < |rightMenu| ==>
              lines[j] == leftMenu[j] + Spaces(spacesList[j]) + rightMenu[j]
    ensures forall j :: |rightMenu| <= j < |leftMenu| ==> lines[j] == leftMenu[j]
  {
    var maxRows := if |leftMenu| >= |rightMenu| then |leftMenu| else |rightMenu|;
    lines := [];
    for i := 0 to maxRows
      invariant |lines| == i
      invariant forall j :: 0 <= j < i && j < |rightMenu| ==>
                  lines[j] == leftMenu[j] + Spaces(spacesList[j]) + rightMenu[j]
      invariant forall j :: 0 <= j < i && j >= |rightMenu| ==> lines[j] == leftMenu[j]
    {
      var line: string := [];
      var spaces: nat := 0;
      if i < |leftMenu| {
        line := leftMenu[i];
        spaces := spacesList[i];
      } else {
        // maxRows is the length of the left column: every row has a left label.
        assert false;
      }
      if i < |rightMenu| {
        line := line + Spaces(spaces) + rightMenu[i];
      }
      lines := lines + [line];
    }
  }

  /**
   * The rows of the menu as `print_menu` prints them. Row i holds label i and,
   * when there is one, label LeftCount(N) + i after padding label i out to
   * `rightStart`, which is the widest left label plus the gutter.
   */
  method LayoutMenu(items: seq<string>) returns (lines: seq<string>, rightStart: nat)
    ensures |lines| == LeftCount(|items|)
    ensures forall i :: 0 <= i < |lines| ==> DisplayWidthOf(items[i]) + Gutter <= rightStart
    ensures |lines| > 0 ==> exists i :: 0 <= i < |lines| && DisplayWidthOf(items[i]) + Gutter == rightStart
    ensures |lines| == 0 ==> rightStart == Gutter
    ensures forall i :: 0 <= i < |lines| && |lines| + i < |items| ==>
              lines[i] == Pad(items[i], rightStart) + items[|lines| + i]
    ensures forall i :: 0 <= i < |lines| && |lines| + i >= |items| ==> lines[i] == items[i]
  {
    var totalItems := |items|;
    var leftColumnCount := (totalItems + 1) / 2;
    var leftMenu := items[..leftColumnCount];
    var rightMenu := items[leftColumnCount..];

    var maxLeftWidth := MaxDisplayWidth(leftMenu);

    var fixedSpacing := Gutter;
    rightStart := maxLeftWidth + fixedSpacing;

    var spacesList := SpacesBeforeRight(leftMenu, rightStart);

    var rows := PrintRows(leftMenu, rightMenu, spacesList);
    lines := rows;
    forall i | 0 <= i < |lines| && |lines| + i < |items|
      ensures lines[i] == Pad(items[i], rightStart) + items[|lines| + i]
    {
      assert spacesList[i] == rightStart - DisplayWidthOf(items[i]);
    }
  }
}
