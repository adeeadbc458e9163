# grav_sim in Dafny

A model of the core of grav_sim, a small pygame gravity simulator. Bodies
("entities") attract each other. A body that collides with a lighter or
equally heavy one swallows it, and the swallowed body leaves the simulation.
The user drags with the mouse to launch new bodies, changes the time scale
and the camera focus from the keyboard, and zooms the camera.

The model covers five parts:

- `entities.dfy` (module `Entities`): the `Entity` class and its in-place
  updates `move` and `consume`. Also the pickling pair `__getstate__` /
  `__setstate__` as a dictionary round trip, and the swept collision
  quadrilateral.
- `physics.dfy` (module `Physics`): the `PhysicsEngine` tick over the live
  entity list, the gravity sum, the collision test, and the merge
  bookkeeping. Entities are compared by identity, as `@dataclass(eq=False)`
  makes Python do. The list is an `EntityList` object because the engine
  and the keyboard handler share it.
- `camera.dfy` (module `Graphics`): the zoom clamp, the focus point, and the
  world-to-screen and screen-to-world conversions, including Python's
  round-half-to-even.
- `mouse.dfy` (module `Mouse`): the drag-to-create state machine of
  `MouseHandler.handle_click`.
- `keyboard.dfy` (module `Keyboard`): the time-scale and focus keys.

`geometry.dfy` (module `Geometry`) holds pygame's `Vector2` as an exact value,
and `settings.dfy` (module `Settings`) holds the configuration constants.

Numbers are exact Dafny `real`s. `sqrt`, `atan2`, `cos` and `sin` are not
interpreted: every operation that needs them takes a `Math` value holding the
four functions. Where a proof needs more than that, the lemma says so
through `Math.Sound()`: square roots are nonnegative and zero only at zero.

Each merge in `_handle_entity_collisions` is specified on values first.
`Absorb` walks the entity list copied on entry, in order, and says which
entities the survivor consumes and what mass it ends with. The
`HandleEntityCollisions` method is proved to do exactly that, through its
loop body (`Visit`, `VisitNext`). Lemmas then prove what follows:

- the survivor stays in the list;
- it consumes only entities that were lighter than it or as heavy;
- its mass never decreases;
- the other entities keep their order;
- the total mass of the list is unchanged.

The whole tick is specified on values as well: `Tick` updates position
0, 1, 2, ... of the live list in turn, each by `UpdateStep` (motion, then
`Absorb`, then the consumed entities leave), and `PhysicsEngine.Update` is
proved to end with exactly the attributes `Tick` gives.

The model follows the code where a reader of a gravity simulator might
expect something else:

- A merge inside the tick only adds the mass, so momentum is not kept on
  merge. The momentum update exists only in `_merge_entities`, which
  nothing calls.
- Equal masses are not broken by entity id or any other order: the entity
  being updated consumes the other one.
- The tick visits list positions of the live list. An entity that shifts into
  an already visited position is not updated in that tick.
- The time-scale bounds `MIN_TIME_SCALE` and `MAX_TIME_SCALE` in the
  settings are never enforced.
- No spatial tree (quadtree) is built: gravity is a plain sum over all
  entities.

## Model

| member | source | states |
|---|---|---|
| Entities.Entity.constructor | grav_sim/src/core/entity/entity.py:25-38 | every attribute is stored as given, with the source's defaults (velocity 0, direction 0, red, no name, no velocity arrow); `old_position` equals `position`; a given name is kept, otherwise the random one is used; there is no image |
| Entities.Entity.Move | grav_sim/src/core/entity/entity.py:137-140 | `old_position` becomes the previous position and `position` becomes (x, y); mass, density, velocity, direction, color, flag, name and image are unchanged |
| Entities.Entity.Consume | grav_sim/src/core/entity/entity.py:148-149 | the mass becomes the old mass plus the other's mass, and only this field changes; a positive other mass makes it strictly larger |
| Entities.Encode | grav_sim/src/core/entity/entity.py:40-52 | the pickled dictionary has exactly the nine attribute keys, and vectors are flattened to (x, y) pairs |
| Entities.NineKeys | grav_sim/src/core/entity/entity.py:41-51 | the dictionary holds exactly nine entries |
| Entities.Decode | grav_sim/src/core/entity/entity.py:54-66 | defines the attribute values `__setstate__` reads from a well-formed dictionary; its partner is `Encode`, through `DecodeEncode` |
| Entities.DecodeEncode | grav_sim/src/core/entity/entity.py:40-67 | reading a pickled dictionary back gives the same nine attribute values |
| Entities.Entity.GetState | grav_sim/src/core/entity/entity.py:40-52 | the state is well formed for `__setstate__` and decodes to the entity's attributes |
| Entities.Entity.SetState | grav_sim/src/core/entity/entity.py:54-67 | every pickled attribute is overwritten from the dictionary, and the image is reset to none |
| Entities.Entity.CollisionPath | grav_sim/src/core/entity/entity.py:98-112 | four corners, where corner 0 + corner 3 = 2·old position and corner 1 + corner 2 = 2·position; both long sides equal the displacement; the offset is perpendicular to the displacement |
| Entities.BodyRadius | grav_sim/src/core/entity/entity.py:76-78 | defines the radius sqrt(mass / (density·pi)) of a body; what the collision test needs of it is stated by `Physics.ColocatedCollide` and `Physics.CollisionNeedsRadius` |
| Entities.Entity.Radius | grav_sim/src/core/entity/entity.py:76-78 | the `radius` property: `BodyRadius` of the entity's attributes |
| Entities.Entity.VelocityVector | grav_sim/src/core/entity/entity.py:142-146 | defines the velocity vector (cos(direction)·velocity, sin(direction)·velocity), reading only those two attributes; it also stands for `_get_velocity_vector` in physics.py:13-17, and its use is stated by `Physics.PhysicsEngine.Accelerate` and `Physics.PhysicsEngine.MergeEntities` |
| Entities.PerpendicularOffset | grav_sim/src/core/entity/entity.py:100-105 | the rotated and scaled direction is orthogonal to the displacement |
| Physics.CheckCollision | grav_sim/src/core/physics/physics.py:8-10 | defines the test on two bodies: the distance of the centres is below the sum of the radii; its properties are the three lemmas below |
| Physics.CollisionSymmetric | grav_sim/src/core/physics/physics.py:8-10 | the collision test gives the same answer for (a, b) and (b, a) |
| Physics.ColocatedCollide | grav_sim/src/core/physics/physics.py:8-10 | when `sqrt(0) = 0`, two bodies at one place collide whenever their radii have a positive sum |
| Physics.CollisionNeedsRadius | grav_sim/src/core/physics/physics.py:8-10 | with a sound square root, entities that collide have a positive sum of radii |
| Physics.Collide | grav_sim/src/core/physics/physics.py:8-10 | the collision test as the engine's `collide` parameter: it agrees with `CheckCollision` wherever the source's test is defined (both densities nonzero) |
| Physics.CollideSymmetric | grav_sim/src/core/physics/physics.py:8-10 | that parameter is symmetric, so which of two entities is updated decides only who consumes whom |
| Physics.PhysicsEngine.constructor | grav_sim/src/core/physics/physics.py:21-22 | the engine keeps the given list object |
| Physics.PhysicsEngine.CalculateGravityVector | grav_sim/src/core/physics/physics.py:39-56 | the result is the in-order sum of what every other entity at nonzero distance contributes, with constant GRAVITY_CONSTANT·time_scale |
| Physics.Force | grav_sim/src/core/physics/physics.py:52 | defines Newton's force G·m·mo / distance² |
| Physics.Attraction | grav_sim/src/core/physics/physics.py:47-54 | defines what one other entity adds to the gravity vector: nothing at distance 0, otherwise the unit direction times force / own mass; its properties are the lemmas below |
| Physics.Pull | grav_sim/src/core/physics/physics.py:41-56 | defines the in-order sum over the first n entities of the list, skipping the entity itself; the loop is proved equal to it by `CalculateGravityVector` |
| Physics.AttractionIgnoresOwnMass | grav_sim/src/core/physics/physics.py:52-54 | each contribution does not depend on the attracted entity's own mass |
| Physics.ColocatedAttractsNothing | grav_sim/src/core/physics/physics.py:47-50 | an entity at zero distance contributes nothing |
| Physics.AttractionPointsToward | grav_sim/src/core/physics/physics.py:47-54 | with positive constant and mass, a contribution points towards the attracting entity |
| Physics.AttractionScales | grav_sim/src/core/physics/physics.py:40-54 | a contribution is proportional to the gravitational constant |
| Physics.PullScales | grav_sim/src/core/physics/physics.py:40-56 | the whole gravity vector is proportional to the gravitational constant |
| Physics.PausedPullIsZero | grav_sim/src/core/physics/physics.py:40-56 | with time scale 0 the gravity vector is zero |
| Physics.PhysicsEngine.Visit | grav_sim/src/core/physics/physics.py:63-71 | for one entity of the copy: the other is consumed and removed from the list exactly when it is another entity, collides, and is no heavier; otherwise nothing changes; total mass is kept |
| Physics.VisitStep | grav_sim/src/core/physics/physics.py:62-71 | one more entity of the copy: consumed entities stay in the visited prefix and apart from the survivor; the list loses exactly the taken entity; the walk stays in step with `Absorb` |
| Physics.PhysicsEngine.VisitNext | grav_sim/src/core/physics/physics.py:62-71 | one turn of the loop keeps its invariants: the list is the copy without the consumed entities, the survivor's attributes follow `Absorb`, and total mass is kept |
| Physics.ResumesEnds | grav_sim/src/core/physics/physics.py:62 | the walk over the copy starts with nothing consumed and, once every entity is visited, has produced `Absorb`'s result |
| Physics.AbsorbNext | grav_sim/src/core/physics/physics.py:66-71 | an entity is taken exactly when it is not the survivor, collides, and weighs no more than the survivor's current mass |
| Physics.PhysicsEngine.HandleEntityCollisions | grav_sim/src/core/physics/physics.py:58-71 | the survivor's mass and the consumed entities are `Absorb` over the copy taken on entry; the list loses exactly the consumed entities, keeping the rest in order; the survivor stays; total mass is unchanged |
| Physics.Absorb | grav_sim/src/core/physics/physics.py:62-71 | defines the walk over the copy of the list: skip itself and whatever it does not collide with, consume what it collides with and weighs no more than its current mass; gives the final mass and the consumed entities in order; the loop is proved equal to it by `HandleEntityCollisions` |
| Physics.AbsorbSelfBlind | grav_sim/src/core/physics/physics.py:63-64 | the walk skips the survivor's own entry, so what that entry records does not change the result |
| Physics.AbsorbAccounts | grav_sim/src/core/physics/physics.py:69-71 | consumed entities come from the copy and are never the survivor; the final mass is the starting mass plus exactly the consumed masses |
| Physics.AbsorbOnlyLighter | grav_sim/src/core/physics/physics.py:69-71 | the survivor's mass never decreases, and each consumed entity weighed at most half the final mass |
| Physics.TotalMassRemove | grav_sim/src/core/physics/physics.py:71 | removing an entity from the list takes exactly its mass off the total |
| Physics.ConsumeKeepsTotal | grav_sim/src/core/physics/physics.py:69-71 | one consume followed by the removal of the consumed entity keeps the total mass |
| Physics.PhysicsEngine.Remove | grav_sim/src/core/physics/physics.py:74 | `list.remove`: the list loses exactly `other` and keeps everything else; the total mass drops by `other`'s mass |
| Physics.PhysicsEngine.MergeEntities | grav_sim/src/core/physics/physics.py:73-83 | `other` leaves the list; `entity`'s mass becomes the sum; its velocity is the length of the summed momenta divided by the new mass and its direction their angle, with `other`'s mass read after the addition; nothing else about `entity` changes; the total mass is kept when `entity` is another listed entity and drops by `other`'s mass otherwise |
| Physics.PhysicsEngine.Accelerate | grav_sim/src/core/physics/physics.py:29-36 | the new velocity is the length of the old velocity vector plus the gravity vector `Pull`, the new direction its angle; the position moves to what `advance` gives for that motion and the old position is the previous one; nothing else changes |
| Physics.Moved | grav_sim/src/core/physics/physics.py:29-36 | defines the motion on values: the velocity vector plus the gravity vector gives the new velocity and direction, then the move to what `advance` gives, remembering the old position; `Accelerate` is proved to perform it |
| Physics.PhysicsEngine.UpdateEntity | grav_sim/src/core/physics/physics.py:28-37 | the motion of `Accelerate`, then collisions as `Absorb` says over the list as it stood on entry: the final mass and the removed entities are `Absorb`'s; the entity survives and its mass never decreases; total mass is kept; no other attribute changes |
| Physics.PhysicsEngine.UpdateAt | grav_sim/src/core/physics/physics.py:26-37 | `_update_entity` of the entity at list position i, on values: the attributes of the list afterwards are `UpdateStep` of those before, and the entities removed are exactly those its collisions consume |
| Physics.PhysicsEngine.UpdateNext | grav_sim/src/core/physics/physics.py:25-26 | one turn of the loop: the entity at position i is updated, is not among the entities its update removes, was not updated before, and every updated entity still sits before position i + 1 |
| Physics.TracedSnoc | grav_sim/src/core/physics/physics.py:25-26 | visiting one more position of the live list extends the trace of the walk |
| Physics.ReplayedSnoc | grav_sim/src/core/physics/physics.py:25-26 | one more `UpdateStep` extends the replay of the walk on values |
| Physics.PhysicsEngine.WalkStep | grav_sim/src/core/physics/physics.py:25-26 | one turn of the loop, with the entity at position i updated as `UpdateStep` says, keeps the walk's invariant `Walking` at i + 1; the list never grows and total mass is kept |
| Physics.CandidatesPositive | grav_sim/src/core/physics/physics.py:24-26 | a list of entities of positive mass gives attributes of positive mass |
| Physics.CandidatesWithout | grav_sim/src/core/physics/physics.py:71 | removing entities from the list removes exactly their attributes, the rest in order |
| Physics.PullOnValues | grav_sim/src/core/physics/physics.py:39-56 | the gravity vector of an entity is `BodyPull` over the attributes of the list |
| Physics.BodyPull | grav_sim/src/core/physics/physics.py:39-56 | defines `Pull` on attribute values: the in-order sum of the attractions of the other list entries |
| Physics.UpdateStep | grav_sim/src/core/physics/physics.py:28-37 | `_update_entity` of position i on values (`Moved`, then `Absorb` over the list as it stands, then the consumed entities dropped); masses stay positive and the list never grows |
| Physics.Tick | grav_sim/src/core/physics/physics.py:24-26 | defines the tick on values: `UpdateStep` at positions 0, 1, 2, ... of the live list until the walk passes its end |
| Physics.TickNext | grav_sim/src/core/physics/physics.py:25-26 | a tick that has not passed the end updates the next position |
| Physics.ReplayedTick | grav_sim/src/core/physics/physics.py:24-26 | after a replay of n positions, `Tick` from position n is the whole `Tick` |
| Physics.PhysicsEngine.Update | grav_sim/src/core/physics/physics.py:24-26 | the final attributes of the list are `Tick` of those on entry; the trace of the walk: position k is visited in the list as it then stands, the entity there takes `UpdateStep` against the attributes of that moment, and the list loses exactly the entities its collisions consume, never itself; the walk stops only past the end of the list; no entity is updated twice; with nothing consumed every entity is updated once, in list order; total mass is kept |
| Physics.WithoutIndex | grav_sim/src/core/physics/physics.py:25-26 | removals only move a remaining entity towards the front of the list, so it is never visited again |
| Graphics.Camera.constructor | grav_sim/src/graphics/camera.py:6-19 | zoom 1, focus at the board centre (5000, 5000), inside the zoom bounds |
| Graphics.Camera.FocusOn | grav_sim/src/graphics/camera.py:21-23 | the focus point becomes (x, y); the zoom level is untouched |
| Graphics.ZoomedLevel | grav_sim/src/graphics/camera.py:25-29 | zooming in gives 0.9·level or the minimum, never below it; zooming out gives 1.1·level or the maximum, never above it |
| Graphics.Camera.Zoom | grav_sim/src/graphics/camera.py:25-29 | one zoom step, keeping the level within [0.01, 10] |
| Graphics.ZoomStaysInRange | grav_sim/src/graphics/camera.py:7-9 | a level in [0.01, 10] stays there after any zoom step |
| Graphics.ZoomMonotone | grav_sim/src/graphics/camera.py:26-29 | within the bounds, zooming in never raises the level and zooming out never lowers it, strictly unless the level sits at the bound |
| Graphics.ZoomInOutShrinks | grav_sim/src/graphics/camera.py:26-29 | zooming in then out leaves 0.99 of the level away from the bounds, so the steps are not inverse |
| Graphics.RoundHalfEven | grav_sim/src/graphics/camera.py:39-40 | Python's `round`: the result is within 1/2 of the argument, and a tie goes to the even neighbour |
| Graphics.RoundingUnique | grav_sim/src/graphics/camera.py:39-40 | those two conditions determine the rounded value |
| Graphics.RoundWhole | grav_sim/src/graphics/camera.py:39-40 | rounding a whole number gives it back |
| Graphics.Camera.WorldToScreenPos | grav_sim/src/graphics/camera.py:31-42 | defines the screen position: the exact projection, each coordinate rounded half to even; `ScreenPosWhole`, `ScreenRoundTrip` and `WorldRoundTrip` state its properties |
| Graphics.Camera.ScreenPosWhole | grav_sim/src/graphics/camera.py:31-42 | screen positions have whole-number coordinates, within half a pixel of the exact projection |
| Graphics.Camera.ScreenToWorldPos | grav_sim/src/graphics/camera.py:44-57 | the world point projects exactly onto the given screen point |
| Graphics.Camera.CenterShowsFocus | grav_sim/src/graphics/camera.py:44-57 | the viewport centre maps to the camera position |
| Graphics.Camera.ScreenRoundTrip | grav_sim/src/graphics/camera.py:31-57 | a whole-pixel screen point taken to the world and back is unchanged |
| Graphics.Camera.WorldRoundTrip | grav_sim/src/graphics/camera.py:31-57 | a world point taken to the screen and back moves by at most 0.5/zoom per coordinate |
| Graphics.Camera.GetVisibleArea | grav_sim/src/graphics/camera.py:59-63 | the corners span the viewport size divided by the zoom level; the focus point is their midpoint; with positive zoom, top-left ≤ bottom-right in both coordinates |
| Mouse.ClickPoint | grav_sim/src/input/mouse_handler.py:18-26 | the click point times the zoom level is the screen-to-world point, so the zoom is divided out twice |
| Mouse.ClickPointOffCursor | grav_sim/src/input/mouse_handler.py:22-26 | the click point is the point under the cursor exactly when zoom is 1 or that point is the origin |
| Mouse.WheelMass | grav_sim/src/input/mouse_handler.py:39-46 | wheel up multiplies the mass by 1.1; wheel down gives the mass that 1.1 times the new one restores |
| Mouse.WheelRoundTrip | grav_sim/src/input/mouse_handler.py:39-46 | up then down, or down then up, restores the mass; a positive mass grows going up and shrinks but stays positive going down |
| Mouse.DragSpeed | grav_sim/src/input/mouse_handler.py:50-51 | defines the launch speed: the drag length times VELOCITY_MULTIPLIER |
| Mouse.DragSpeedSign | grav_sim/src/input/mouse_handler.py:50-51 | with a sound square root the launch speed is never negative and is zero only for an empty drag |
| Mouse.MouseHandler.constructor | grav_sim/src/input/mouse_handler.py:11-15 | not held, mass 10, no start point, no preview |
| Mouse.MouseHandler.GetPreviewEntity | grav_sim/src/input/mouse_handler.py:63-65 | returns the preview, which exists exactly while the button is held |
| Mouse.MouseHandler.HandleClick | grav_sim/src/input/mouse_handler.py:17-61 | left click: held, start at the click point, fresh preview (current mass, density 0.1, speed 0, blue), an earlier preview left untouched, returns none. Wheel: one mass step, applied to any preview. Drag while held: the preview sits at the start, launch speed from the drag. Release while held: returns the preview and clears the drag. Anything else changes nothing. Only a release can return an entity, and the drag invariant is kept |
| Keyboard.AdjustTimeScale | grav_sim/src/input/keyboard_handler.py:37-41 | increasing doubles the time scale; decreasing gives the value whose double is the old one |
| Keyboard.AdjustRoundTrip | grav_sim/src/input/keyboard_handler.py:37-41 | doubling and halving the time scale undo each other in either order |
| Keyboard.AdjustKeepsSign | grav_sim/src/input/keyboard_handler.py:37-41 | the adjusted time scale has the old sign; a positive one grows when increased and shrinks when decreased |
| Keyboard.AdjustIgnoresBounds | grav_sim/src/input/keyboard_handler.py:37-41 | one step from MAX_TIME_SCALE or MIN_TIME_SCALE leaves the range: no clamp is applied |
| Keyboard.Keydown | grav_sim/src/input/keyboard_handler.py:21-35 | the controls after a key: only period and comma change the time scale; only digit keys change the focus and the camera; a changed focus is an entity of the list, with the camera on its position |
| Keyboard.TimeKeysKeepFocus | grav_sim/src/input/keyboard_handler.py:23-26 | period and comma change only the time scale, doubling or halving it |
| Keyboard.DigitKeyFocus | grav_sim/src/input/keyboard_handler.py:29-35 | digit key k focuses entity k − K_1 and moves the camera to its position when the index is inside the list, and changes nothing otherwise; the time scale is untouched |
| Keyboard.OtherKeysInert | grav_sim/src/input/keyboard_handler.py:21-35 | keys other than period, comma and the digits change nothing |
| Keyboard.PeriodCommaRoundTrip | grav_sim/src/input/keyboard_handler.py:23-26 | period then comma, or comma then period, restores the controls |
| Keyboard.KeyboardHandler.constructor | grav_sim/src/input/keyboard_handler.py:10-14 | stores the time scale, the shared list and the camera; nothing is focused |
| Keyboard.KeyboardHandler.CurrentTimeScale | grav_sim/src/input/keyboard_handler.py:43-45 | the getter itself; what it reports across key presses is stated by `HandleKeydown` and `HandleKeyboardEvent` |
| Keyboard.KeyboardHandler.HandleKeydown | grav_sim/src/input/keyboard_handler.py:21-35 | the controls change as `Keydown` says; `current_time_scale` doubles after period, halves after comma and is unchanged after any other key; the quit request is returned exactly for Escape |
| Keyboard.KeyboardHandler.HandleKeyboardEvent | grav_sim/src/input/keyboard_handler.py:16-19 | a KEYDOWN event acts as its key; any other event changes nothing and requests no quit; `current_time_scale` changes only with a period or comma key |

## Left out

- Floating point: all arithmetic is exact. `sqrt`, `atan2`, `cos` and `sin` are uninterpreted parameters, so rounding error, NaN and infinities are not modelled.
- Vector2 aliasing: positions are values. After `__init__`, `old_position` and `position` are the same object, and the mouse handler shares `start_pos` with the preview. No one ever mutates a shared vector in place, because `move` installs a copy before it changes `position`.
- The collision test the engine calls, `entity.collide`, is not defined on `Entity`. The engine takes it as a parameter `collide` on attribute values. `Physics.CheckCollision` models `_check_collision`, its evident meaning.
- The integration step `entity.move(time_scale)` passes one argument to `move(x, y)`, which takes two, so it would raise a TypeError. `Accelerate` takes the new position from a parameter `advance` and then calls `Move` with its two coordinates.
- `_handle_collisions` only forwards to `_handle_entity_collisions`, so `UpdateEntity` calls `HandleEntityCollisions` directly. `_update_entity` is split into its motion half (`Accelerate`) and its collision half.
- The collision test is passed to the engine as `Collide(math)`, which answers false where Python would raise on a zero density.
- `_get_velocity_vector` and `Entity.get_velocity_vector` compute the same thing, so both are `Entity.VelocityVector`.
- Physics.PhysicsEngine.MergeEntities: states the new velocity and direction as the formulas of the source, not a conservation law. They go through the uninterpreted `sqrt` and `atan2`, so no law about the momentum follows.
- Physics.PhysicsEngine.Update: states the final attributes of the entities still in the list, not those of the entities it removed, which no later code reads.
- The engine relies on a list with no entity twice and every mass positive (`PhysicsEngine.Valid`). The game builds its list from fresh entities of positive mass, but `create_default_entities` in grav_sim/src/core/physics/utils.py is not part of this model.
- Divisions by zero, which raise in Python, are preconditions:
  - a nonzero density for the radius;
  - a nonzero combined mass for `_merge_entities`;
  - a nonzero mass for the gravity vector;
  - a nonzero zoom level for screen-to-world conversion and for the mouse handler.
- `__setstate__` on a dictionary that lacks a key raises in Python, so `SetState` requires every key. A value of the wrong type is not modelled: `SetState` also requires each value to have the shape it reads. The `Sprite` re-initialisation it performs is not modelled.
- Random names are a parameter `randomName`.
- Escape: the quit request is returned as a flag rather than posted to pygame's event queue.
- The pygame key codes are pygame 2's values: KEYDOWN 768, Escape 27, comma 44, period 46, and '1' to '9' are 49 to 57.
- The camera's `min_zoom` and `max_zoom` are constants rather than instance attributes, since nothing reassigns them.
- Not modelled:
  - `realRect`, `oldRect`, `collision_mask`, `draw` and `__str__`;
  - the renderer;
  - the game loop, including its routing of wheel events to the camera when no preview exists;
  - the option menu;
  - the scenario set-up in utils.py.

  All of these are pygame drawing, UI or hard-coded floating-point scenarios.
