/** The keyboard controls of grav_sim/src/input/keyboard_handler.py: period
    and comma double and halve the time scale, Escape asks the game to quit,
    and the digit keys 1 to 9 focus the camera on one of the first nine
    entities. */
module Keyboard {
  import opened Geometry
  import opened Entities
  import opened Graphics
  import Settings

  // pygame's event type and key codes.
  const KEYDOWN: int := 768
  const K_ESCAPE: int := 27
  const K_COMMA: int := 44
  const K_PERIOD: int := 46
  const K_1: int := 49
  const K_9: int := 57

  /** A pygame event: its type and, for key events, the key. */
  datatype Event = Event(kind: int, key: int)

  /** What the keys control: the time scale, the focused entity and the
      camera's focus point. */
  datatype Controls = Controls(timeScale: real, focused: Option<Entity>, cameraPosition: Vec)

  /** `_adjust_time_scale`: doubled when increasing, halved otherwise. */
  function AdjustTimeScale(timeScale: real, increase: bool): (r: real)
    ensures increase ==> r == timeScale * 2.0
    ensures !increase ==> r * 2.0 == timeScale
  {
    if increase then timeScale * 2.0 else timeScale / 2.0
  }

  /** Doubling and halving undo each other, in either order. */
  lemma AdjustRoundTrip(timeScale: real)
    ensures AdjustTimeScale(AdjustTimeScale(timeScale, true), false) == timeScale
    ensures AdjustTimeScale(AdjustTimeScale(timeScale, false), true) == timeScale
  {
  }

  /** An adjusted time scale has the sign of the old one, and moves away from
      zero when increased and towards it when decreased. */
  lemma AdjustKeepsSign(timeScale: real, increase: bool)
    ensures AdjustTimeScale(timeScale, increase) > 0.0 <==> timeScale > 0.0
    ensures AdjustTimeScale(timeScale, increase) < 0.0 <==> timeScale < 0.0
    ensures timeScale > 0.0 && increase ==> AdjustTimeScale(timeScale, increase) > timeScale
    ensures timeScale > 0.0 && !increase ==> AdjustTimeScale(timeScale, increase) < timeScale
  {
  }

  /** The declared time-scale bounds are not enforced: one step from either
      bound leaves the range. */
  lemma AdjustIgnoresBounds()
    ensures AdjustTimeScale(Settings.MAX_TIME_SCALE, true) > Settings.MAX_TIME_SCALE
    ensures AdjustTimeScale(Settings.MIN_TIME_SCALE, false) < Settings.MIN_TIME_SCALE
  {
  }

  /** The keys '1' to '9'; key k selects list index k - K_1. */
  predicate IsDigitKey(key: int)
  {
    K_1 <= key <= K_9
  }

  /** The effect of a key press (`_handle_keydown`) on the controls, where
      `items` is the entity list at the time. */
  function Keydown(c: Controls, key: int, items: seq<Entity>): (r: Controls)
    reads items
    ensures key != K_PERIOD && key != K_COMMA ==> r.timeScale == c.timeScale
    ensures !IsDigitKey(key) ==> r.focused == c.focused && r.cameraPosition == c.cameraPosition
    ensures r.focused != c.focused || r.cameraPosition != c.cameraPosition ==>
      r.focused.Some? && r.focused.value in items && r.cameraPosition == r.focused.value.position
  {
    if key == K_PERIOD then c.(timeScale := AdjustTimeScale(c.timeScale, true))
    else if key == K_COMMA then c.(timeScale := AdjustTimeScale(c.timeScale, false))
    else if key == K_ESCAPE then c
    else if IsDigitKey(key) && key - K_1 < |items| then
      c.(focused := Some(items[key - K_1]), cameraPosition := items[key - K_1].position)
    else c
  }

  /** The time-scale keys change only the time scale. */
  lemma TimeKeysKeepFocus(c: Controls, key: int, items: seq<Entity>)
    requires key == K_PERIOD || key == K_COMMA
    ensures Keydown(c, key, items).focused == c.focused
    ensures Keydown(c, key, items).cameraPosition == c.cameraPosition
    ensures Keydown(c, key, items).timeScale == AdjustTimeScale(c.timeScale, key == K_PERIOD)
  {
  }

  /** A digit key focuses the entity at its index, and the camera on that
      entity's position, when the list is long enough; otherwise nothing
      changes. The time scale is never touched. */
  lemma DigitKeyFocus(c: Controls, key: int, items: seq<Entity>)
    requires IsDigitKey(key)
    ensures Keydown(c, key, items).timeScale == c.timeScale
    ensures key - K_1 < |items| ==>
      Keydown(c, key, items) == c.(focused := Some(items[key - K_1]), cameraPosition := items[key - K_1].position)
    ensures key - K_1 >= |items| ==> Keydown(c, key, items) == c
  {
  }

  /** Only the period, comma and digit keys change anything. */
  lemma OtherKeysInert(c: Controls, key: int, items: seq<Entity>)
    requires key != K_PERIOD && key != K_COMMA && !IsDigitKey(key)
    ensures Keydown(c, key, items) == c
  {
  }

  /** Period then comma, or comma then period, restores the controls. */
  lemma PeriodCommaRoundTrip(c: Controls, items: seq<Entity>)
    ensures Keydown(Keydown(c, K_PERIOD, items), K_COMMA, items) == c
    ensures Keydown(Keydown(c, K_COMMA, items), K_PERIOD, items) == c
  {
    AdjustRoundTrip(c.timeScale);
  }

  class KeyboardHandler {
    var timeScale: real
    var focusedEntity: Option<Entity>
    /** The entity list, shared with the physics engine. */
    const entities: EntityList
    const camera: Camera

    constructor (entities: EntityList, camera: Camera, timeScale: real)
      ensures this.timeScale == timeScale && focusedEntity == None
      ensures this.entities == entities && this.camera == camera
    {
      this.timeScale := timeScale;
      focusedEntity := None;
      this.entities := entities;
      this.camera := camera;
    }

    /** The controls as they stand. */
    function State(): Controls
      reads this, camera
    {
      Controls(timeScale, focusedEntity, camera.position)
    }

    /** `current_time_scale`: the stored time scale. That only the period and
        comma keys change it is part of `HandleKeydown`'s contract. */
    function CurrentTimeScale(): real
      reads this
    {
      timeScale
    }

    /** `_handle_keydown`. Escape's request to quit is returned instead of
        being posted to the event queue. */
    method HandleKeydown(key: int) returns (quit: bool)
      modifies this`timeScale, this`focusedEntity, camera`position
      ensures State() == Keydown(old(State()), key, entities.items)
      ensures key != K_PERIOD && key != K_COMMA ==> CurrentTimeScale() == old(CurrentTimeScale())
      ensures key == K_PERIOD ==> CurrentTimeScale() == 2.0 * old(CurrentTimeScale())
      ensures key == K_COMMA ==> 2.0 * CurrentTimeScale() == old(CurrentTimeScale())
      ensures quit <==> key == K_ESCAPE
    {
      quit := false;
      if key == K_PERIOD {
        timeScale := AdjustTimeScale(timeScale, true);
      } else if key == K_COMMA {
        timeScale := AdjustTimeScale(timeScale, false);
      } else if key == K_ESCAPE {
        quit := true;
      } else if IsDigitKey(key) {
        var index := key - K_1;
        if index < |entities.items| {
          var entity := entities.items[index];
          camera.FocusOn(entity.position.x, entity.position.y);
          focusedEntity := Some(entity);
        }
      }
    }

    /** `handle_keyboard_event`: key presses go to `HandleKeydown`; every other
        event changes nothing. */
    method HandleKeyboardEvent(event: Event) returns (quit: bool)
      modifies this`timeScale, this`focusedEntity, camera`position
      ensures event.kind == KEYDOWN ==> State() == Keydown(old(State()), event.key, entities.items)
      ensures event.kind != KEYDOWN ==> State() == old(State())
      ensures !(event.kind == KEYDOWN && event.key in {K_PERIOD, K_COMMA}) ==> CurrentTimeScale() == old(CurrentTimeScale())
      ensures quit <==> event.kind == KEYDOWN && event.key == K_ESCAPE
    {
      quit := false;
      if event.kind == KEYDOWN {
        quit := HandleKeydown(event.key);
      }
    }
  }
}
