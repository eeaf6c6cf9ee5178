/**
 * The right-click menu (src/components/ContextMenu.tsx): its position kept
 * inside the viewport, its rows, and what a click or a key does.
 */
module ContextMenu {
  import opened Wrappers

  /** The gap, in pixels, kept between a repositioned menu and the viewport edge. */
  const EdgeMargin: int := 10

  /** One entry of the menu; `action` is identified by the entry's index. */
  datatype MenuOption = MenuOption(text: string, icon: Option<string>, disabled: bool, divider: bool)

  /** What the menu asks of its owner. */
  datatype Effect = RunAction(index: nat) | Close

  /** One rendered row: a divider line or an entry. */
  datatype Row = DividerRow | ItemRow(index: nat, text: string, disabled: bool)

  /**
   * One coordinate of the position-clamp effect: a menu that would overflow
   * the viewport is pulled back to end `EdgeMargin` pixels inside it; one that
   * fits stays where it was opened.
   */
  function Clamp(pos: int, size: int, viewport: int): (r: int)
    ensures pos + size > viewport ==> r + size == viewport - EdgeMargin
    ensures pos + size <= viewport ==> r == pos
    ensures r + size <= viewport
  {
    if pos + size > viewport then viewport - size - EdgeMargin else pos
  }

  /** Clamping an already clamped coordinate changes nothing. */
  lemma ClampIdempotent(pos: int, size: int, viewport: int)
    ensures Clamp(Clamp(pos, size, viewport), size, viewport) == Clamp(pos, size, viewport)
  {
  }

  /** The click guard: a disabled entry does nothing; an enabled one runs its action, then closes the menu. */
  function ClickEffects(options: seq<MenuOption>, i: nat): (r: seq<Effect>)
    requires i < |options|
    ensures r == [] <==> options[i].disabled
    ensures !options[i].disabled ==> r == [RunAction(i), Close]
  {
    if !options[i].disabled then [RunAction(i), Close] else []
  }

  /** The document `keydown` listener: Escape closes. */
  function KeyEffects(key: string): (r: seq<Effect>)
    ensures r == [Close] <==> key == "Escape"
    ensures r == [] <==> key != "Escape"
  {
    if key == "Escape" then [Close] else []
  }

  /** The document `mousedown` listener: a press outside the menu closes it. */
  function MouseDownEffects(insideMenu: bool): (r: seq<Effect>)
    ensures r == [Close] <==> !insideMenu
    ensures r == [] <==> insideMenu
  {
    if insideMenu then [] else [Close]
  }

  /** The number of entries among the first `n` that draw a divider above themselves. */
  function DividersBefore(options: seq<MenuOption>, n: nat): nat
    requires n <= |options|
  {
    if n == 0 then 0
    else DividersBefore(options, n - 1) + (if options[n - 1].divider then 1 else 0)
  }

  /** The rows for the entries from index `from` on, numbered from `from`. */
  function RowsFrom(options: seq<MenuOption>, from: nat): (r: seq<Row>)
    requires from <= |options|
    decreases |options| - from
  {
    if from == |options| then []
    else
      var o := options[from];
      (if o.divider then [DividerRow] else []) + [ItemRow(from, o.text, o.disabled)] + RowsFrom(options, from + 1)
  }

  /** The rendered rows: each entry in list order, preceded by a divider when its flag is set. */
  function Rows(options: seq<MenuOption>): seq<Row> {
    RowsFrom(options, 0)
  }

  /** The row index at which entry `i` is drawn: after the entries before it and their dividers, and after its own. */
  function RowOf(options: seq<MenuOption>, i: nat): nat
    requires i < |options|
  {
    i + DividersBefore(options, i + 1)
  }

  /** Within the rows drawn from entry `from` on, entry `i` sits at its offset from `from`'s first row. */
  lemma {:induction false} RowsFromLayout(options: seq<MenuOption>, from: nat, i: nat)
    requires from <= i < |options|
    ensures var rows := RowsFrom(options, from);
            var at := RowOf(options, i) - RowOf(options, from) + (if options[from].divider then 1 else 0);
      && 0 <= at < |rows|
      && rows[at] == ItemRow(i, options[i].text, options[i].disabled)
      && (at > 0 && rows[at - 1] == DividerRow <==> options[i].divider)
    decreases i - from
  {
    var o := options[from];
    var head := (if o.divider then [DividerRow] else []) + [ItemRow(from, o.text, o.disabled)];
    var tail := RowsFrom(options, from + 1);
    var rows := RowsFrom(options, from);
    assert rows == head + tail;
    var at := RowOf(options, i) - RowOf(options, from) + (if o.divider then 1 else 0);
    if i == from {
      assert at == |head| - 1;
    } else {
      RowsFromLayout(options, from + 1, i);
      var next := options[from + 1];
      var atNext := RowOf(options, i) - RowOf(options, from + 1) + (if next.divider then 1 else 0);
      assert DividersBefore(options, from + 2) == DividersBefore(options, from + 1) + (if next.divider then 1 else 0);
      assert at == atNext + |head|;
      assert rows[at] == tail[atNext];
      if atNext > 0 {
        assert rows[at - 1] == tail[atNext - 1];
      } else {
        assert rows[at - 1] == ItemRow(from, o.text, o.disabled);
      }
    }
  }

  /**
   * Entry `i` is drawn at row `RowOf(options, i)`, so entries keep their list
   * order, and the row just above it is a divider exactly when the entry's
   * `divider` flag is set.
   */
  lemma RowsLayout(options: seq<MenuOption>, i: nat)
    requires i < |options|
    ensures var rows := Rows(options);
      && RowOf(options, i) < |rows|
      && rows[RowOf(options, i)] == ItemRow(i, options[i].text, options[i].disabled)
      && (RowOf(options, i) > 0 && rows[RowOf(options, i) - 1] == DividerRow <==> options[i].divider)
  {
    assert DividersBefore(options, 1) == (if options[0].divider then 1 else 0);
    RowsFromLayout(options, 0, i);
  }

  /**
   * The open menu: its inline `left`/`top`, the point `(x, y)` it was opened
   * at, and the effects it has asked for, oldest first.
   */
  class Menu {
    const x: int
    const y: int
    var left: int
    var top: int
    var effects: seq<Effect>

    constructor (x: int, y: int)
      ensures this.x == x && this.y == y && left == x && top == y && effects == []
    {
      this.x := x;
      this.y := y;
      left := x;
      top := y;
      effects := [];
    }

    /**
     * The position-clamp effect, given the menu's measured size and the
     * viewport's: the inline position is rewritten, both coordinates at once,
     * only when at least one of them had to move.
     */
    method AdjustPosition(width: int, height: int, viewportWidth: int, viewportHeight: int)
      modifies this`left, this`top
      ensures var ax, ay := Clamp(x, width, viewportWidth), Clamp(y, height, viewportHeight);
        if ax != x || ay != y then left == ax && top == ay
        else left == old(left) && top == old(top)
    {
      var adjustedX := x;
      var adjustedY := y;
      if x + width > viewportWidth {
        adjustedX := viewportWidth - width - EdgeMargin;
      }
      if y + height > viewportHeight {
        adjustedY := viewportHeight - height - EdgeMargin;
      }
      if adjustedX != x || adjustedY != y {
        left := adjustedX;
        top := adjustedY;
      }
    }

    /** A click on entry `i`. */
    method ClickOption(options: seq<MenuOption>, i: nat)
      requires i < |options|
      modifies this`effects
      ensures effects == old(effects) + ClickEffects(options, i)
    {
      if !options[i].disabled {
        effects := effects + [RunAction(i)];
        effects := effects + [Close];
      }
    }

    /** A key pressed anywhere in the document. */
    method KeyDown(key: string)
      modifies this`effects
      ensures effects == old(effects) + KeyEffects(key)
    {
      if key == "Escape" {
        effects := effects + [Close];
      }
    }

    /** A mouse button pressed anywhere in the document. */
    method MouseDown(insideMenu: bool)
      modifies this`effects
      ensures effects == old(effects) + MouseDownEffects(insideMenu)
    {
      if !insideMenu {
        effects := effects + [Close];
      }
    }
  }
}
