/** Window geometry and menus of the main process (`main.js`): the colour
    theme palette handed out round-robin, where a new session window is
    placed, the integer arithmetic that grows a window upwards for a speech
    bubble and shrinks it back, and the context menu's entries. */
module Layout {
  import opened Options
  import opened Protocol

  /** The palette, in the order windows receive it. */
  const ColorThemes: seq<string> :=
    ["green", "blue", "purple", "orange", "pink", "red", "cyan", "yellow", "lavender", "teal"]

  const WindowWidth: int := 400
  const CompactHeight: int := 340
  const ExpandedHeight: int := 550
  /** Horizontal distance between neighbouring session windows. */
  const WindowOffset: int := 60

  datatype Bounds = Bounds(x: int, y: int, width: int, height: int)

  function Min(a: int, b: int): int {
    if a <= b then a else b
  }

  function Max(a: int, b: int): int {
    if a >= b then a else b
  }

  /** The theme the `index`-th created window receives; the round robin
      over the palette is stated by `Arbitration.ThemesRoundRobin`. */
  function ThemeFor(index: nat): (theme: string)
    ensures theme in ColorThemes
  {
    ColorThemes[index % |ColorThemes|]
  }

  /** Where a new session window goes when `existing` windows are open: at
      the bottom of the work area, shifted left by one offset per open
      window. */
  function InitialBounds(screenWidth: int, screenHeight: int, existing: nat): (b: Bounds)
    ensures b.width == WindowWidth && b.height == CompactHeight
    ensures b.x + b.width + existing * WindowOffset == screenWidth
    ensures b.y + b.height == screenHeight
  {
    Bounds(screenWidth - WindowWidth - existing * WindowOffset, screenHeight - CompactHeight, WindowWidth, CompactHeight)
  }

  /** The height an expand request asks for: the requested height, or the
      expanded height when the request is missing or zero (`||`), never
      more than the expanded height. */
  function ExpandTarget(target: Option<int>): (h: int)
    ensures h <= ExpandedHeight
    ensures target.Some? && target.value != 0 ==> h == Min(target.value, ExpandedHeight)
    ensures target.None? || target.value == 0 ==> h == ExpandedHeight
  {
    var requested := if target.Some? && target.value != 0 then target.value else ExpandedHeight;
    Min(requested, ExpandedHeight)
  }

  /** The `expand-window` handler: the window only ever grows, to the
      requested height capped at the expanded height, and grows upwards:
      its left edge, width and bottom edge stay where they were. */
  function Expand(b: Bounds, target: Option<int>): (r: Bounds)
    ensures r.x == b.x && r.width == b.width
    ensures r.y + r.height == b.y + b.height
    ensures r.height == Max(b.height, ExpandTarget(target))
  {
    var diff := ExpandTarget(target) - b.height;
    if diff > 0 then Bounds(b.x, b.y - diff, b.width, ExpandTarget(target)) else b
  }

  /** The `compact-window` handler: the window only ever shrinks, to the
      compact height, keeping its left edge, width and bottom edge. */
  function Compact(b: Bounds): (r: Bounds)
    ensures r.x == b.x && r.width == b.width
    ensures r.y + r.height == b.y + b.height
    ensures r.height == Min(b.height, CompactHeight)
  {
    var diff := b.height - CompactHeight;
    if diff > 0 then Bounds(b.x, b.y + diff, b.width, CompactHeight) else b
  }

  /** Showing and then hiding a bubble puts a compact window back exactly
      where it was. */
  lemma CompactUndoesExpand(b: Bounds, target: Option<int>)
    requires b.height == CompactHeight
    ensures Compact(Expand(b, target)) == b
  {
  }

  /** Expanding twice to the same target is expanding once; compacting
      twice is compacting once. */
  lemma ResizeIdempotent(b: Bounds, target: Option<int>)
    ensures Expand(Expand(b, target), target) == Expand(b, target)
    ensures Compact(Compact(b)) == Compact(b)
  {
  }

  datatype MenuItem =
    | HideBubbleItem
    | Separator
    | RelaunchItem
    | QuitSessionItem(session: string)
    | QuitItem

  /** The context menu of a session window, given the session the clicked
      window belongs to (None when it belongs to none). The per-session quit
      entry appears exactly for a real session other than the default one
      (an empty id is falsy and gets none either); the other entries are
      always there, with quitting the application last. */
  function ContextMenu(sessionId: Option<string>): (items: seq<MenuItem>)
    ensures |items| == 5 || |items| == 7
    ensures items[..4] == [HideBubbleItem, Separator, RelaunchItem, Separator]
    ensures items[|items| - 1] == QuitItem
    ensures forall s :: QuitSessionItem(s) in items <==> sessionId == Some(s) && s != "" && s != DefaultSession
  {
    var common := [HideBubbleItem, Separator, RelaunchItem, Separator];
    var own := if sessionId.Some? && sessionId.value != "" && sessionId.value != DefaultSession
               then [QuitSessionItem(sessionId.value), Separator]
               else [];
    common + own + [QuitItem]
  }
}
