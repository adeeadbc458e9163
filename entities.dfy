/** A simulated body (`Entity` in grav_sim/src/core/entity/entity.py): its
    state, the in-place updates `move` and `consume`, the pickling pair
    `__getstate__`/`__setstate__` and the swept collision quadrilateral. */
module Entities {
  import opened Geometry

  datatype Option<T> = None | Some(value: T)

  /** An RGB tuple. */
  datatype Color = Color(r: int, g: int, b: int)

  /** A pygame surface; only whether an entity has one matters here. */
  type Surface

  /** The nine attributes that `__getstate__` pickles, as one value. */
  datatype Body = Body(
    position: Vec,
    oldPosition: Vec,
    density: real,
    mass: real,
    velocity: real,
    direction: real,
    color: Color,
    drawVelocity: bool,
    name: string)

  /** A value of the pickled dictionary: a coordinate pair, a number, a color,
      a flag or a string. */
  datatype StateValue =
    | Pair(first: real, second: real)
    | Number(number: real)
    | Rgb(rgb: Color)
    | Flag(flag: bool)
    | Text(text: string)

  const StateKeys: set<string> :=
    {"position", "old_position", "density", "mass", "velocity", "direction", "color", "draw_velocity", "name"}

  /** The dictionary `__getstate__` builds: exactly the nine keys, vectors
      flattened to (x, y) pairs. */
  function Encode(b: Body): (state: map<string, StateValue>)
    ensures state.Keys == StateKeys
    ensures state["position"] == Pair(b.position.x, b.position.y)
    ensures state["old_position"] == Pair(b.oldPosition.x, b.oldPosition.y)
  {
    map[
      "position" := Pair(b.position.x, b.position.y),
      "old_position" := Pair(b.oldPosition.x, b.oldPosition.y),
      "density" := Number(b.density),
      "mass" := Number(b.mass),
      "velocity" := Number(b.velocity),
      "direction" := Number(b.direction),
      "color" := Rgb(b.color),
      "draw_velocity" := Flag(b.drawVelocity),
      "name" := Text(b.name)]
  }

  /** The nine keys are distinct, so the dictionary has nine entries. */
  lemma NineKeys(b: Body)
    ensures |Encode(b)| == 9
  {
    var keys := ["position", "old_position", "density", "mass", "velocity", "direction", "color", "draw_velocity", "name"];
    assert forall i, j :: 0 <= i < j < |keys| ==> keys[i] != keys[j];
    SetSize(keys);
    assert (set k | k in keys) == StateKeys;
    assert Encode(b).Keys == StateKeys;
  }

  lemma SetSize(keys: seq<string>)
    requires forall i, j :: 0 <= i < j < |keys| ==> keys[i] != keys[j]
    ensures |set k | k in keys| == |keys|
  {
    if keys != [] {
      var rest := keys[1..];
      SetSize(rest);
      assert (set k | k in keys) == (set k | k in rest) + {keys[0]};
      assert keys[0] !in (set k | k in rest);
    }
  }

  /** What `__setstate__` needs of its dictionary: every key it reads, holding
      a value of the shape it reads. */
  predicate WellFormed(state: map<string, StateValue>)
  {
    && StateKeys <= state.Keys
    && state["position"].Pair?
    && state["old_position"].Pair?
    && state["density"].Number?
    && state["mass"].Number?
    && state["velocity"].Number?
    && state["direction"].Number?
    && state["color"].Rgb?
    && state["draw_velocity"].Flag?
    && state["name"].Text?
  }

  /** The attribute values `__setstate__` reads out of a dictionary. */
  function Decode(state: map<string, StateValue>): Body
    requires WellFormed(state)
  {
    Body(
      Vec(state["position"].first, state["position"].second),
      Vec(state["old_position"].first, state["old_position"].second),
      state["density"].number,
      state["mass"].number,
      state["velocity"].number,
      state["direction"].number,
      state["color"].rgb,
      state["draw_velocity"].flag,
      state["name"].text)
  }

  /** Pickling round trip: decoding the dictionary of a body gives the body back. */
  lemma DecodeEncode(b: Body)
    ensures WellFormed(Encode(b))
    ensures Decode(Encode(b)) == b
  {
  }

  /** The radius of a body of the given density and mass: sqrt(mass / (density * pi)). */
  function BodyRadius(b: Body, m: Math): real
    requires b.density != 0.0
  {
    m.sqrt(b.mass / (b.density * Pi))
  }

  /** The velocity vector of a speed and a direction: (cos(direction)·speed,
      sin(direction)·speed). */
  function VelocityOf(velocity: real, direction: real, m: Math): Vec
  {
    Vec(m.cos(direction) * velocity, m.sin(direction) * velocity)
  }

  /** pi as Python's `math.pi` holds it. */
  const Pi: real := 3.141592653589793

  /** The floor `collision_path` puts under the displacement length. */
  const MinPathLength: real := 0.001

  class Entity {
    var position: Vec
    var oldPosition: Vec
    var density: real
    var mass: real
    var velocity: real
    var direction: real
    var color: Color
    var drawVelocity: bool
    var name: string
    var image: Option<Surface>

    /** `Entity.__init__`, with its default arguments. `randomName` stands for
        the eight random letters and digits drawn when no name is given. */
    constructor (position: Vec, density: real, mass: real, randomName: string,
                 velocity: real := 0.0, direction: real := 0.0, color: Color := Color(255, 0, 0),
                 name: Option<string> := None, drawVelocity: bool := false)
      ensures this.position == position && oldPosition == position
      ensures this.density == density && this.mass == mass
      ensures this.velocity == velocity && this.direction == direction
      ensures this.color == color && this.drawVelocity == drawVelocity
      ensures this.name == (if name.Some? then name.value else randomName)
      ensures image == None
    {
      this.position := position;
      this.oldPosition := position;
      this.density := density;
      this.mass := mass;
      this.velocity := velocity;
      this.direction := direction;
      this.color := color;
      this.name := if name.Some? then name.value else randomName;
      this.image := None;
      this.drawVelocity := drawVelocity;
    }

    /** The pickled attributes of this entity. */
    function AsBody(): Body
      reads this
    {
      Body(position, oldPosition, density, mass, velocity, direction, color, drawVelocity, name)
    }

    /** `__getstate__`. */
    function GetState(): (state: map<string, StateValue>)
      reads this
      ensures WellFormed(state) && Decode(state) == AsBody()
    {
      DecodeEncode(AsBody());
      Encode(AsBody())
    }

    /** `__setstate__`: every pickled attribute is written from the dictionary
        and the image is dropped. */
    method SetState(state: map<string, StateValue>)
      requires WellFormed(state)
      modifies this
      ensures AsBody() == Decode(state)
      ensures image == None
    {
      position := Vec(state["position"].first, state["position"].second);
      oldPosition := Vec(state["old_position"].first, state["old_position"].second);
      density := state["density"].number;
      mass := state["mass"].number;
      velocity := state["velocity"].number;
      direction := state["direction"].number;
      color := state["color"].rgb;
      drawVelocity := state["draw_velocity"].flag;
      name := state["name"].text;
      image := None;
    }

    /** The `radius` property. */
    function Radius(m: Math): real
      reads this
      requires density != 0.0
    {
      BodyRadius(AsBody(), m)
    }

    /** The `collision_path` property: the segment from the old to the current
        position, offset on both sides along its perpendicular by twice the
        radius. The corners pair up about the segment's two ends, the long
        sides are the displacement, and the offset is perpendicular to it. */
    function CollisionPath(m: Math): (path: seq<Vec>)
      reads this
      requires density != 0.0
      ensures |path| == 4
      ensures Add(path[0], path[3]) == Scale(oldPosition, 2.0)
      ensures Add(path[1], path[2]) == Scale(position, 2.0)
      ensures Sub(path[1], path[0]) == Sub(position, oldPosition)
      ensures Sub(path[2], path[3]) == Sub(position, oldPosition)
      ensures Dot(Sub(path[0], oldPosition), Sub(position, oldPosition)) == 0.0
    {
      var displacement := Sub(position, oldPosition);
      var length := if Length(displacement, m) < MinPathLength then MinPathLength else Length(displacement, m);
      var unit := Scale(displacement, 1.0 / length);
      var perp := Scale(Vec(-unit.y, unit.x), Radius(m) * 2.0);
      PerpendicularOffset(displacement, 1.0 / length, Radius(m) * 2.0);
      [Add(oldPosition, perp), Add(position, perp), Sub(position, perp), Sub(oldPosition, perp)]
    }

    /** `move`: the current position becomes the old one and the new
        coordinates are stored; nothing else changes. */
    method Move(x: real, y: real)
      modifies this
      ensures oldPosition == old(position) && position == Vec(x, y)
      ensures density == old(density) && mass == old(mass)
      ensures velocity == old(velocity) && direction == old(direction)
      ensures color == old(color) && drawVelocity == old(drawVelocity)
      ensures name == old(name) && image == old(image)
    {
      oldPosition := position;
      position := Vec(x, y);
    }

    /** The velocity vector from the polar pair (`get_velocity_vector`). */
    function VelocityVector(m: Math): Vec
      reads this`velocity, this`direction
    {
      VelocityOf(velocity, direction, m)
    }

    /** `consume`: the other entity's mass is added to this one's. */
    method Consume(other: Entity)
      modifies this`mass
      ensures mass == old(mass) + old(other.mass)
      ensures old(other.mass) > 0.0 ==> mass > old(mass)
    {
      mass := mass + other.mass;
    }
  }

  /** The perpendicular of a vector scaled by any factors is orthogonal to it. */
  lemma PerpendicularOffset(d: Vec, inv: real, k: real)
    ensures Dot(Scale(Vec(-Scale(d, inv).y, Scale(d, inv).x), k), d) == 0.0
  {
    var p := Scale(Vec(-Scale(d, inv).y, Scale(d, inv).x), k);
    assert p.x == -(d.y * inv) * k;
    assert p.y == (d.x * inv) * k;
    assert Mul(p.x, d.x) == -(Mul(d.x, d.y) * inv * k);
    assert Mul(p.y, d.y) == Mul(d.x, d.y) * inv * k;
  }

  /** A Python list of entities. The list is an object: the physics engine
      and the keyboard handler hold the same one, and the engine changes it in
      place. */
  class EntityList {
    var items: seq<Entity>

    constructor (items: seq<Entity>)
      ensures this.items == items
    {
      this.items := items;
    }
  }
}
