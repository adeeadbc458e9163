/** The drag-to-create state machine of grav_sim/src/input/mouse_handler.py:
    a left click starts a preview entity, dragging gives it a launch velocity,
    the wheel changes the mass of the next entity, and releasing the button
    hands the preview over. */
module Mouse {
  import opened Geometry
  import opened Entities
  import opened Graphics
  import Settings

  /** The mouse buttons as the game loop reports them; `Motion` is the code
      the loop passes for a drag and `Release` for any button going up. */
  const Left: int := 1
  const WheelUp: int := 4
  const WheelDown: int := 5
  const Motion: int := 0
  const Release: int := -1

  /** The color of entities created with the mouse. */
  const PreviewColor: Color := Color(0, 0, 255)

  /** The world point a click at screen point (x, y) is taken to: the camera's
      screen-to-world conversion, then divided once more by the zoom level.
      It matches the point under the cursor only at zoom 1 or at the world
      origin. */
  function ClickPoint(camera: Camera, x: int, y: int): (p: Vec)
    reads camera
    requires camera.zoomLevel != 0.0
    ensures Scale(p, camera.zoomLevel) == camera.ScreenToWorldPos(Vec(x as real, y as real))
  {
    var world := camera.ScreenToWorldPos(Vec(x as real, y as real));
    var p := Vec(world.x / camera.zoomLevel, world.y / camera.zoomLevel);
    assert p.x * camera.zoomLevel == world.x;
    assert p.y * camera.zoomLevel == world.y;
    p
  }

  /** The click point is the point under the cursor exactly when the zoom
      level is 1 or that point is the world origin. */
  lemma ClickPointOffCursor(camera: Camera, x: int, y: int)
    requires camera.zoomLevel != 0.0
    ensures var under := camera.ScreenToWorldPos(Vec(x as real, y as real));
      ClickPoint(camera, x, y) == under <==> camera.zoomLevel == 1.0 || under == Zero
  {
    var under := camera.ScreenToWorldPos(Vec(x as real, y as real));
    var p := ClickPoint(camera, x, y);
    var z := camera.zoomLevel;
    if p == under && z != 1.0 {
      assert p.x * z == p.x && p.y * z == p.y;
      FixedByScale(p.x, z);
      FixedByScale(p.y, z);
    }
  }

  /** A number that a factor other than 1 leaves unchanged is zero. */
  lemma FixedByScale(a: real, z: real)
    requires a * z == a && z != 1.0
    ensures a == 0.0
  {
    assert a * (z - 1.0) == 0.0;
  }

  /** The mass after one wheel step: up multiplies it by 1.1, down divides it
      by 1.1. */
  function WheelMass(mass: real, up: bool): (r: real)
    ensures up ==> r == mass * 1.1
    ensures !up ==> r * 1.1 == mass
  {
    if up then mass * 1.1 else mass / 1.1
  }

  /** One step up and one step down, in either order, restore the mass, and
      each step keeps the sign. */
  lemma WheelRoundTrip(mass: real)
    ensures WheelMass(WheelMass(mass, true), false) == mass
    ensures WheelMass(WheelMass(mass, false), true) == mass
    ensures mass > 0.0 ==> WheelMass(mass, true) > mass && 0.0 < WheelMass(mass, false) < mass
  {
  }

  /** The launch speed of a drag from `start` to `now`: the drag length times
      the velocity multiplier. */
  function DragSpeed(start: Vec, now: Vec, math: Math): real
  {
    Length(Sub(now, start), math) * Settings.VELOCITY_MULTIPLIER
  }

  /** With a sound square root the launch speed is never negative, and it is
      zero only for an empty drag. */
  lemma DragSpeedSign(start: Vec, now: Vec, math: Math)
    requires math.Sound()
    ensures DragSpeed(start, now, math) >= 0.0
    ensures DragSpeed(start, now, math) == 0.0 <==> now == start
  {
    var diff := Sub(now, start);
    assert diff == Zero <==> now == start;
    LengthZeroIff(diff, math);
    PositiveFactor(Length(diff, math), Settings.VELOCITY_MULTIPLIER);
  }

  /** A nonnegative number times a positive factor is nonnegative, and zero
      only when the number is. */
  lemma PositiveFactor(a: real, k: real)
    requires a >= 0.0 && k > 0.0
    ensures a * k >= 0.0
    ensures a * k == 0.0 <==> a == 0.0
  {
    if a > 0.0 {
      assert a * k > 0.0;
    }
  }

  class MouseHandler {
    var mouseHeld: bool
    var mass: real
    var startPos: Option<Vec>
    var creatingEntity: Option<Entity>

    /** A drag is in progress exactly when there is a start point and a
        preview entity. */
    ghost predicate Valid()
      reads this
    {
      startPos.Some? == mouseHeld && creatingEntity.Some? == mouseHeld
    }

    /** The preview entity, as a set for frames. */
    function Preview(): set<object>
      reads this
    {
      if creatingEntity.Some? then {creatingEntity.value} else {}
    }

    constructor ()
      ensures Valid()
      ensures !mouseHeld && mass == Settings.DEFAULT_MASS
      ensures startPos == None && creatingEntity == None
    {
      mouseHeld := false;
      mass := Settings.DEFAULT_MASS;
      startPos := None;
      creatingEntity := None;
    }

    /** `get_preview_entity`: there is a preview exactly while the button is
        held. */
    function GetPreviewEntity(): (preview: Option<Entity>)
      reads this
      requires Valid()
      ensures preview.Some? <==> mouseHeld
      ensures preview == creatingEntity
    {
      creatingEntity
    }

    /** `handle_click`. `randomName` stands for the random name a new preview
        entity draws. Only a release during a drag returns an entity. */
    method HandleClick(x: int, y: int, button: int, camera: Camera, math: Math, randomName: string)
      returns (result: Option<Entity>)
      requires Valid() && camera.zoomLevel != 0.0
      modifies this, Preview()
      ensures Valid()
      ensures result.Some? ==> button == Release && old(mouseHeld)
      // left click: a fresh preview at the click point with the current mass
      ensures button == Left ==>
        && mouseHeld && mass == old(mass)
        && startPos == Some(ClickPoint(camera, x, y))
        && creatingEntity.Some? && fresh(creatingEntity.value)
        && creatingEntity.value.AsBody() == Body(ClickPoint(camera, x, y), ClickPoint(camera, x, y),
             Settings.DEFAULT_DENSITY, mass, 0.0, 0.0, PreviewColor, false, randomName)
        && creatingEntity.value.image == None
        && unchanged(old(Preview()))
        && result == None
      // wheel: the mass changes by one step, and the preview takes it on
      ensures (button == WheelUp || button == WheelDown) ==>
        && mass == WheelMass(old(mass), button == WheelUp)
        && mouseHeld == old(mouseHeld) && startPos == old(startPos)
        && creatingEntity == old(creatingEntity)
        && (creatingEntity.Some? ==>
              creatingEntity.value.AsBody() == old(creatingEntity.value.AsBody()).(mass := mass)
              && unchanged(creatingEntity.value`image))
        && result == None
      // drag: the preview sits at the start point and aims along the drag
      ensures button == Motion && old(mouseHeld) ==>
        && mouseHeld && mass == old(mass) && startPos == old(startPos)
        && creatingEntity == old(creatingEntity)
        && (var start := old(startPos.value); var now := ClickPoint(camera, x, y);
            creatingEntity.value.AsBody() == old(creatingEntity.value.AsBody()).(
              position := start,
              velocity := DragSpeed(start, now, math),
              direction := math.atan2(now.y - start.y, now.x - start.x)))
        && unchanged(creatingEntity.value`image)
        && result == None
      // release during a drag: the preview is handed over and the drag ends
      ensures button == Release && old(mouseHeld) ==>
        && !mouseHeld && mass == old(mass)
        && startPos == None && creatingEntity == None
        && result == old(creatingEntity)
        && unchanged(old(creatingEntity.value))
      // anything else changes nothing
      ensures button !in {Left, WheelUp, WheelDown} && !(button in {Motion, Release} && old(mouseHeld)) ==>
        unchanged(this) && unchanged(old(Preview())) && result == None
    {
      var world := ClickPoint(camera, x, y);
      result := None;
      if button == Left {
        mouseHeld := true;
        startPos := Some(world);
        var preview := new Entity(world, Settings.DEFAULT_DENSITY, mass, randomName, velocity := 0.0, direction := 0.0, color := PreviewColor);
        creatingEntity := Some(preview);
      } else if button == WheelUp {
        mass := mass * 1.1;
        if creatingEntity.Some? {
          creatingEntity.value.mass := mass;
        }
      } else if button == WheelDown {
        mass := mass / 1.1;
        if creatingEntity.Some? {
          creatingEntity.value.mass := mass;
        }
      } else if button == Motion && mouseHeld {
        var preview := creatingEntity.value;
        var start := startPos.value;
        var diff := Sub(world, start);
        preview.velocity := DragSpeed(start, world, math);
        preview.direction := math.atan2(diff.y, diff.x);
        preview.position := start;
      } else if button == Release && mouseHeld {
        mouseHeld := false;
        result := creatingEntity;
        creatingEntity := None;
        startPos := None;
      }
    }
  }
}
