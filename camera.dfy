/** The camera of grav_sim/src/graphics/camera.py: a zoom level kept between
    two bounds, a focus point in world coordinates, and the affine maps
    between world and screen coordinates. */
module Graphics {
  import opened Geometry
  import Settings

  /** Python's `round` on a number: the nearest integer, ties going to the
      even neighbour. */
  function RoundHalfEven(x: real): (n: int)
    ensures x - 0.5 <= n as real <= x + 0.5
    ensures (n as real == x - 0.5 || n as real == x + 0.5) ==> n % 2 == 0
  {
    var f := x.Floor;
    var frac := x - f as real;
    if frac < 0.5 then f
    else if frac > 0.5 then f + 1
    else if f % 2 == 0 then f
    else f + 1
  }

  /** The three conditions of `RoundHalfEven` pin the result down: any integer
      that meets them is the rounded value. */
  lemma RoundingUnique(x: real, n: int)
    requires x - 0.5 <= n as real <= x + 0.5
    requires (n as real == x - 0.5 || n as real == x + 0.5) ==> n % 2 == 0
    ensures RoundHalfEven(x) == n
  {
  }

  /** Rounding leaves a whole number unchanged. */
  lemma RoundWhole(k: int)
    ensures RoundHalfEven(k as real) == k
  {
    RoundingUnique(k as real, k);
  }

  const MinZoom: real := 0.01
  const MaxZoom: real := 10.0

  /** The zoom level after one `zoom` step: zooming in multiplies it by 0.9
      but not below the minimum, zooming out multiplies it by 1.1 but not above
      the maximum. */
  function ZoomedLevel(level: real, zoomIn: bool): (r: real)
    ensures zoomIn ==> r >= MinZoom && (r == MinZoom || r == level * 0.9)
    ensures !zoomIn ==> r <= MaxZoom && (r == MaxZoom || r == level * 1.1)
  {
    if zoomIn then (if MinZoom >= level * 0.9 then MinZoom else level * 0.9)
    else (if MaxZoom <= level * 1.1 then MaxZoom else level * 1.1)
  }

  /** A zoom level within the bounds stays within them. */
  lemma {:induction false} ZoomStaysInRange(level: real, zoomIn: bool)
    requires MinZoom <= level <= MaxZoom
    ensures MinZoom <= ZoomedLevel(level, zoomIn) <= MaxZoom
  {
    if zoomIn {
      assert level * 0.9 <= level;
    } else {
      assert level * 1.1 >= level;
    }
  }

  /** Within the bounds, zooming in never raises the level and zooming out
      never lowers it; each step moves it strictly unless it is already at
      the bound it moves towards. */
  lemma ZoomMonotone(level: real, zoomIn: bool)
    requires MinZoom <= level <= MaxZoom
    ensures zoomIn ==> ZoomedLevel(level, zoomIn) <= level
    ensures zoomIn && level > MinZoom ==> ZoomedLevel(level, zoomIn) < level
    ensures !zoomIn ==> ZoomedLevel(level, zoomIn) >= level
    ensures !zoomIn && level < MaxZoom ==> ZoomedLevel(level, zoomIn) > level
  {
  }

  /** Zooming in and then out does not return to the same level: away from
      the bounds it leaves 0.99 of it. */
  lemma ZoomInOutShrinks(level: real)
    requires MinZoom <= level * 0.9 && level * 0.99 <= MaxZoom
    ensures ZoomedLevel(ZoomedLevel(level, true), false) == level * 0.99
  {
  }

  class Camera {
    var zoomLevel: real
    var position: Vec
    const viewportWidth: int := Settings.WINDOW_WIDTH
    const viewportHeight: int := Settings.WINDOW_HEIGHT

    /** The zoom level lies between the bounds. */
    ghost predicate Valid()
      reads this
    {
      MinZoom <= zoomLevel <= MaxZoom
    }

    /** A camera at zoom 1 over the centre of the board, with the window's
        size as viewport. */
    constructor ()
      ensures Valid()
      ensures zoomLevel == 1.0
      ensures position == Vec(Settings.BOARD_WIDTH as real / 2.0, Settings.BOARD_HEIGHT as real / 2.0)
    {
      zoomLevel := 1.0;
      position := Vec(Settings.BOARD_WIDTH as real / 2.0, Settings.BOARD_HEIGHT as real / 2.0);
    }

    /** `focus_on`: the camera centres on the given point; the zoom level is
        not touched. */
    method FocusOn(x: real, y: real)
      modifies this`position
      ensures position == Vec(x, y)
    {
      position := Vec(x, y);
    }

    /** `zoom`: one zoom step. */
    method Zoom(zoomIn: bool)
      requires Valid()
      modifies this`zoomLevel
      ensures Valid()
      ensures zoomLevel == ZoomedLevel(old(zoomLevel), zoomIn)
    {
      ZoomStaysInRange(zoomLevel, zoomIn);
      zoomLevel := ZoomedLevel(zoomLevel, zoomIn);
    }

    /** The centre of the viewport in screen coordinates. */
    function Center(): Vec
      reads this
    {
      Vec(viewportWidth as real / 2.0, viewportHeight as real / 2.0)
    }

    /** The exact screen point of a world point: its offset from the focus
        point, scaled by the zoom level, from the viewport centre. */
    function Projected(world: Vec): Vec
      reads this
    {
      Add(Scale(Sub(world, position), zoomLevel), Center())
    }

    /** `world_to_screen_pos`: the exact screen point rounded to whole pixels. */
    function WorldToScreenPos(world: Vec): Vec
      reads this
    {
      var exact := Projected(world);
      Vec(RoundHalfEven(exact.x) as real, RoundHalfEven(exact.y) as real)
    }

    /** A screen position has whole-number coordinates, each within half a
        pixel of the exact screen point. */
    lemma ScreenPosWhole(world: Vec)
      ensures var screen := WorldToScreenPos(world);
        && screen.x == screen.x.Floor as real && screen.y == screen.y.Floor as real
        && -0.5 <= screen.x - Projected(world).x <= 0.5
        && -0.5 <= screen.y - Projected(world).y <= 0.5
    {
    }

    /** `screen_to_world_pos`: the offset from the viewport centre, divided by
        the zoom level and added to the focus point. */
    function ScreenToWorldPos(screen: Vec): (world: Vec)
      reads this
      requires zoomLevel != 0.0
      ensures Projected(world) == screen
    {
      var relative := Sub(screen, Center());
      var world := Vec(relative.x / zoomLevel + position.x, relative.y / zoomLevel + position.y);
      assert (relative.x / zoomLevel) * zoomLevel == relative.x;
      assert (relative.y / zoomLevel) * zoomLevel == relative.y;
      world
    }

    /** The viewport centre shows the focus point. */
    lemma CenterShowsFocus()
      requires zoomLevel != 0.0
      ensures ScreenToWorldPos(Center()) == position
    {
    }

    /** A whole-pixel screen point survives the trip to the world and back. */
    lemma ScreenRoundTrip(screen: Vec)
      requires zoomLevel != 0.0
      requires screen.x == screen.x.Floor as real && screen.y == screen.y.Floor as real
      ensures WorldToScreenPos(ScreenToWorldPos(screen)) == screen
    {
      var world := ScreenToWorldPos(screen);
      ScreenPosWhole(world);
      var back := WorldToScreenPos(world);
      WholeNear(back.x, screen.x);
      WholeNear(back.y, screen.y);
    }

    /** A world point taken to the screen and back lands within half a pixel,
        measured in world units, of where it started. */
    lemma WorldRoundTrip(world: Vec)
      requires zoomLevel > 0.0
      ensures -0.5 / zoomLevel <= ScreenToWorldPos(WorldToScreenPos(world)).x - world.x <= 0.5 / zoomLevel
      ensures -0.5 / zoomLevel <= ScreenToWorldPos(WorldToScreenPos(world)).y - world.y <= 0.5 / zoomLevel
    {
      var screen := WorldToScreenPos(world);
      ScreenPosWhole(world);
      var back := ScreenToWorldPos(screen);
      var ex := screen.x - Projected(world).x;
      var ey := screen.y - Projected(world).y;
      assert (back.x - position.x) * zoomLevel == screen.x - Center().x;
      assert (back.y - position.y) * zoomLevel == screen.y - Center().y;
      assert (back.x - world.x) * zoomLevel == ex;
      assert (back.y - world.y) * zoomLevel == ey;
      DivideBound(back.x - world.x, zoomLevel, ex);
      DivideBound(back.y - world.y, zoomLevel, ey);
    }

    /** `get_visible_area`: the world points under the top-left and the
        bottom-right corners of the viewport. With a positive zoom the first
        lies above and left of the second, the area spans the viewport size
        divided by the zoom level, and the focus point is its centre. */
    function GetVisibleArea(): (area: (Vec, Vec))
      reads this
      requires zoomLevel != 0.0
      ensures Scale(Sub(area.1, area.0), zoomLevel) == Vec(viewportWidth as real, viewportHeight as real)
      ensures Add(area.0, area.1) == Scale(position, 2.0)
      ensures zoomLevel > 0.0 ==> area.0.x <= area.1.x && area.0.y <= area.1.y
    {
      var topLeft := ScreenToWorldPos(Vec(0.0, 0.0));
      var bottomRight := ScreenToWorldPos(Vec(viewportWidth as real, viewportHeight as real));
      VisibleSpan(topLeft, bottomRight, zoomLevel, position, Center(), viewportWidth as real, viewportHeight as real);
      (topLeft, bottomRight)
    }
  }

  /** Two whole numbers at most half apart are equal. */
  lemma WholeNear(a: real, b: real)
    requires a == a.Floor as real && b == b.Floor as real
    requires -0.5 <= a - b <= 0.5
    ensures a == b
  {
    assert -1 < a.Floor - b.Floor < 1;
  }

  /** From d·z == e with z > 0 and |e| <= 1/2 follows |d| <= 1/(2z). */
  lemma DivideBound(d: real, z: real, e: real)
    requires z > 0.0 && d * z == e && -0.5 <= e <= 0.5
    ensures -0.5 / z <= d <= 0.5 / z
  {
    assert d == e / z;
    assert e / z <= 0.5 / z;
    assert -0.5 / z <= e / z;
  }

  /** The arithmetic behind `GetVisibleArea`: two points whose offsets from
      `p`, scaled by `z`, are the offsets of the screen corners from the
      viewport centre `c` = (w/2, h/2). */
  lemma VisibleSpan(tl: Vec, br: Vec, z: real, p: Vec, c: Vec, w: real, h: real)
    requires z != 0.0 && c == Vec(w / 2.0, h / 2.0)
    requires Add(Scale(Sub(tl, p), z), c) == Vec(0.0, 0.0)
    requires Add(Scale(Sub(br, p), z), c) == Vec(w, h)
    ensures Scale(Sub(br, tl), z) == Vec(w, h)
    ensures Add(tl, br) == Scale(p, 2.0)
    ensures z > 0.0 && w >= 0.0 && h >= 0.0 ==> tl.x <= br.x && tl.y <= br.y
  {
    assert (br.x - tl.x) * z == (br.x - p.x) * z - (tl.x - p.x) * z;
    assert (br.y - tl.y) * z == (br.y - p.y) * z - (tl.y - p.y) * z;
    assert (tl.x - p.x + (br.x - p.x)) * z == 0.0;
    assert (tl.y - p.y + (br.y - p.y)) * z == 0.0;
    if z > 0.0 && w >= 0.0 && h >= 0.0 {
      assert (br.x - tl.x) * z >= 0.0;
      assert (br.y - tl.y) * z >= 0.0;
    }
  }
}
