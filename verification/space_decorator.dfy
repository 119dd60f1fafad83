/**
 * The spacing decoration (`CustomSpaceDecorator`): the offsets added around one
 * child of the list, from the decoration's configuration, the child's layout and
 * adapter positions, and the number of items the list currently has.
 */
module SpaceDecorator {
  import opened Optional

  datatype Orientation = Vertical | Horizontal | VerticalGrid

  /**
   * `topOrLeft` enables the leading spacing (top in a vertical list, left in a
   * horizontal one), `bottomOrRight` the trailing spacing. `bottomSpacing`, when
   * present, replaces the bottom spacing of the last item.
   */
  datatype Config = Config(
    horizontalSpacing: int,
    verticalSpacing: int,
    orientation: Orientation,
    topOrLeft: bool,
    bottomOrRight: bool,
    bottomSpacing: Option<int>,
    gridSpan: int)

  /** The offsets written into the output rectangle. */
  datatype Offsets = Offsets(left: int, top: int, right: int, bottom: int)

  /** The constructor with its default arguments. */
  function MakeConfig(
    spacing: int := 0,
    horizontalSpacing: int := spacing,
    verticalSpacing: int := spacing,
    orientation: Orientation := Vertical,
    topOrLeft: bool := true,
    bottomOrRight: bool := true,
    bottomSpacing: Option<int> := None,
    gridSpan: int := 1): (c: Config)
    ensures c.horizontalSpacing == horizontalSpacing && c.verticalSpacing == verticalSpacing
    ensures c.orientation == orientation && c.gridSpan == gridSpan && c.bottomSpacing == bottomSpacing
    ensures c.topOrLeft == topOrLeft && c.bottomOrRight == bottomOrRight
  {
    Config(horizontalSpacing, verticalSpacing, orientation, topOrLeft, bottomOrRight, bottomSpacing, gridSpan)
  }

  /** Integer division by two rounding toward zero, as the JVM divides. */
  function Half(x: int): (r: int)
    ensures x >= 0 ==> 0 <= x - 2 * r <= 1
    ensures x < 0 ==> -1 <= x - 2 * r <= 0
    ensures x >= 0 ==> 0 <= r <= x
    ensures x <= 0 ==> x <= r <= 0
    ensures (r < 0 ==> x < 0) && (r > 0 ==> x > 0)
  {
    if x >= 0 then x / 2 else -((-x) / 2)
  }

  /** Gate a spacing by its enable flag. */
  function When(enabled: bool, spacing: int): (r: int)
  {
    if enabled then spacing else 0
  }

  /** The bottom offset; only it depends on the adapter position and the item count. */
  function BottomOffset(c: Config, adapterPosition: int, itemCount: int): (bottom: int)
  {
    match c.bottomSpacing
    case None => When(c.bottomOrRight, c.verticalSpacing)
    case Some(last) =>
      if itemCount > 0 && adapterPosition == itemCount - 1 then When(c.bottomOrRight, last)
      else When(c.bottomOrRight, c.verticalSpacing)
  }

  /**
   * The child starts the list along its scrolling direction, so it is the one that
   * gets the leading spacing: the first item, or any item of the first grid row.
   */
  predicate StartsList(c: Config, layoutPosition: int)
  {
    match c.orientation
    case Vertical => layoutPosition == 0
    case Horizontal => layoutPosition == 0
    case VerticalGrid => layoutPosition < c.gridSpan
  }

  /**
   * `getItemOffsets`. In a vertical list the sides get the horizontal spacing and
   * the first item the top spacing; in a horizontal list the first item gets the
   * left spacing and every item the top and right spacing; in a vertical grid each
   * side gets half the horizontal spacing and the first row the top spacing.
   */
  function ItemOffsets(c: Config, layoutPosition: int, adapterPosition: int, itemCount: int): (o: Offsets)
    ensures !c.topOrLeft ==> o.left == 0 && o.top == 0
    ensures !c.bottomOrRight ==> o.right == 0 && o.bottom == 0
    ensures o.left in {0, c.horizontalSpacing, Half(c.horizontalSpacing)}
    ensures o.right in {0, c.horizontalSpacing, Half(c.horizontalSpacing)}
    ensures o.top in {0, c.verticalSpacing}
    ensures o.bottom == 0 || o.bottom == c.verticalSpacing || Some(o.bottom) == c.bottomSpacing
    ensures c.orientation != Horizontal && o.top != 0 ==> StartsList(c, layoutPosition)
    ensures c.orientation == Horizontal && o.left != 0 ==> StartsList(c, layoutPosition)
    ensures o.bottom == BottomOffset(c, adapterPosition, itemCount)
  {
    var h, v := c.horizontalSpacing, c.verticalSpacing;
    var bottom := BottomOffset(c, adapterPosition, itemCount);
    match c.orientation
    case Horizontal =>
      Offsets(if layoutPosition == 0 then When(c.topOrLeft, h) else 0, When(c.topOrLeft, v),
              When(c.bottomOrRight, h), bottom)
    case Vertical =>
      Offsets(When(c.topOrLeft, h), if layoutPosition == 0 then When(c.topOrLeft, v) else 0,
              When(c.bottomOrRight, h), bottom)
    case VerticalGrid =>
      Offsets(When(c.topOrLeft, Half(h)), if layoutPosition < c.gridSpan then When(c.topOrLeft, v) else 0,
              When(c.bottomOrRight, Half(h)), bottom)
  }

  /** All spacings of the configuration are non-negative. */
  predicate NonNegative(c: Config)
  {
    c.horizontalSpacing >= 0 && c.verticalSpacing >= 0 && (c.bottomSpacing.Some? ==> c.bottomSpacing.value >= 0)
  }

  lemma VerticalOffsets(c: Config, layoutPosition: int, adapterPosition: int, itemCount: int)
    requires c.orientation == Vertical
    ensures var o := ItemOffsets(c, layoutPosition, adapterPosition, itemCount);
            && o.left == (if c.topOrLeft then c.horizontalSpacing else 0)
            && o.right == (if c.bottomOrRight then c.horizontalSpacing else 0)
            && o.top == (if layoutPosition == 0 && c.topOrLeft then c.verticalSpacing else 0)
  {
  }

  lemma HorizontalOffsets(c: Config, layoutPosition: int, adapterPosition: int, itemCount: int)
    requires c.orientation == Horizontal
    ensures var o := ItemOffsets(c, layoutPosition, adapterPosition, itemCount);
            && o.left == (if layoutPosition == 0 && c.topOrLeft then c.horizontalSpacing else 0)
            && o.top == (if c.topOrLeft then c.verticalSpacing else 0)
            && o.right == (if c.bottomOrRight then c.horizontalSpacing else 0)
  {
  }

  lemma GridOffsets(c: Config, layoutPosition: int, adapterPosition: int, itemCount: int)
    requires c.orientation == VerticalGrid
    ensures var o := ItemOffsets(c, layoutPosition, adapterPosition, itemCount);
            && o.left == (if c.topOrLeft then Half(c.horizontalSpacing) else 0)
            && o.right == (if c.bottomOrRight then Half(c.horizontalSpacing) else 0)
            && o.top == (if layoutPosition < c.gridSpan && c.topOrLeft then c.verticalSpacing else 0)
  {
  }

  /** Without a dedicated bottom spacing every item gets the same bottom, in every orientation. */
  lemma BottomWithoutLastSpacing(c: Config, layoutPosition: int, adapterPosition: int, itemCount: int)
    requires c.bottomSpacing.None?
    ensures ItemOffsets(c, layoutPosition, adapterPosition, itemCount).bottom
              == (if c.bottomOrRight then c.verticalSpacing else 0)
  {
  }

  /** With a dedicated bottom spacing only the last adapter position gets it. */
  lemma BottomWithLastSpacing(c: Config, layoutPosition: int, adapterPosition: int, itemCount: int)
    requires c.bottomSpacing.Some?
    ensures var b := ItemOffsets(c, layoutPosition, adapterPosition, itemCount).bottom;
            && (itemCount > 0 && adapterPosition == itemCount - 1 ==> b == When(c.bottomOrRight, c.bottomSpacing.value))
            && (itemCount <= 0 || adapterPosition != itemCount - 1 ==> b == When(c.bottomOrRight, c.verticalSpacing))
  {
  }

  /** With both sides disabled no spacing is added anywhere. */
  lemma BothSidesDisabled(c: Config, layoutPosition: int, adapterPosition: int, itemCount: int)
    requires !c.topOrLeft && !c.bottomOrRight
    ensures ItemOffsets(c, layoutPosition, adapterPosition, itemCount) == Offsets(0, 0, 0, 0)
  {
  }

  /** Non-negative spacings give non-negative offsets, none larger than the spacing it comes from. */
  lemma OffsetsNonNegative(c: Config, layoutPosition: int, adapterPosition: int, itemCount: int)
    requires NonNegative(c)
    ensures var o := ItemOffsets(c, layoutPosition, adapterPosition, itemCount);
            && 0 <= o.left <= c.horizontalSpacing && 0 <= o.right <= c.horizontalSpacing
            && 0 <= o.top <= c.verticalSpacing && 0 <= o.bottom
  {
  }

  /**
   * The defaults describe a vertical list with uniform spacing: every side of every
   * item gets `spacing`, except that only the first item gets a top spacing.
   */
  lemma DefaultsAreUniformVertical(spacing: int, layoutPosition: int, adapterPosition: int, itemCount: int)
    ensures ItemOffsets(MakeConfig(spacing), layoutPosition, adapterPosition, itemCount)
              == Offsets(spacing, if layoutPosition == 0 then spacing else 0, spacing, spacing)
  {
  }

  /**
   * In a grid, two neighbouring cells of one row are separated by their two half
   * spacings: exactly the horizontal spacing when it is even, one less when odd.
   */
  lemma GridGutter(c: Config, p: int, q: int, adapterP: int, adapterQ: int, itemCount: int)
    requires c.orientation == VerticalGrid && c.topOrLeft && c.bottomOrRight && c.horizontalSpacing >= 0
    ensures var gutter := ItemOffsets(c, p, adapterP, itemCount).right + ItemOffsets(c, q, adapterQ, itemCount).left;
            gutter == c.horizontalSpacing - c.horizontalSpacing % 2
  {
  }
}
