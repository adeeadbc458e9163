/** The physics engine of grav_sim/src/core/physics/physics.py: the tick over
    the live entity list, the gravity sum, and the collision bookkeeping in
    which the heavier of two colliding entities consumes the lighter one and
    the lighter one leaves the list. */
module Physics {
  import opened Geometry
  import opened Entities
  import Settings

  // ---------------------------------------------------------------------------
  // Lists of entities, compared by identity

  /** No entity occurs twice. */
  predicate Distinct(s: seq<Entity>)
  {
    s == [] || (s[0] !in s[1..] && Distinct(s[1..]))
  }

  /** The first position of `x` (`list.index`). */
  function IndexOf(s: seq<Entity>, x: Entity): (k: nat)
    requires x in s
    ensures k < |s| && s[k] == x
    ensures forall j :: 0 <= j < k ==> s[j] != x
  {
    if s[0] == x then 0 else 1 + IndexOf(s[1..], x)
  }

  /** `list.remove`: the first occurrence of `x` is dropped. */
  function RemoveFirst(s: seq<Entity>, x: Entity): seq<Entity>
    requires x in s
  {
    if s[0] == x then s[1..] else [s[0]] + RemoveFirst(s[1..], x)
  }

  /** The list with the entities of `gone` filtered out, the rest in order. */
  function Without(s: seq<Entity>, gone: set<Entity>): (r: seq<Entity>)
    ensures |r| <= |s|
    ensures forall x :: x in r ==> x in s && x !in gone
    ensures forall x :: x in s && x !in gone ==> x in r
  {
    if s == [] then []
    else if s[0] in gone then Without(s[1..], gone)
    else [s[0]] + Without(s[1..], gone)
  }

  /** In a distinct list every entity sits at its own `list.index`. */
  lemma {:induction false} IndexOfDistinct(s: seq<Entity>, k: nat)
    requires Distinct(s) && k < |s|
    ensures IndexOf(s, s[k]) == k
  {
    if k > 0 {
      assert s[k] == s[1..][k - 1];
      IndexOfDistinct(s[1..], k - 1);
    }
  }

  /** Appending an entity that is not yet in a distinct list keeps it distinct. */
  lemma {:induction false} DistinctSnoc(s: seq<Entity>, x: Entity)
    requires Distinct(s) && x !in s
    ensures Distinct(s + [x])
  {
    if s != [] {
      assert (s + [x])[1..] == s[1..] + [x];
      DistinctSnoc(s[1..], x);
    }
  }

  lemma {:induction false} WithoutNothing(s: seq<Entity>)
    ensures Without(s, {}) == s
  {
    if s != [] {
      WithoutNothing(s[1..]);
      assert s == [s[0]] + s[1..];
    }
  }

  lemma {:induction false} WithoutDistinct(s: seq<Entity>, gone: set<Entity>)
    requires Distinct(s)
    ensures Distinct(Without(s, gone))
  {
    if s != [] {
      WithoutDistinct(s[1..], gone);
      assert s[0] !in s[1..];
    }
  }

  lemma {:induction false} WithoutTwice(s: seq<Entity>, a: set<Entity>, b: set<Entity>)
    ensures Without(Without(s, a), b) == Without(s, a + b)
  {
    if s != [] {
      WithoutTwice(s[1..], a, b);
      if s[0] !in a {
        assert Without(s, a) == [s[0]] + Without(s[1..], a);
        assert Without(s, a)[1..] == Without(s[1..], a);
      }
    }
  }

  /** Removing an entity that is still present from a filtered distinct list
      filters it out as well. */
  lemma {:induction false} RemoveFirstWithout(s: seq<Entity>, gone: set<Entity>, x: Entity)
    requires Distinct(s) && x in s && x !in gone
    ensures x in Without(s, gone)
    ensures RemoveFirst(Without(s, gone), x) == Without(s, gone + {x})
  {
    if s[0] == x {
      assert x !in s[1..];
      WithoutSkips(s[1..], gone, x);
      assert Without(s, gone) == [x] + Without(s[1..], gone);
    } else {
      RemoveFirstWithout(s[1..], gone, x);
      if s[0] in gone {
        assert Without(s, gone) == Without(s[1..], gone);
      } else {
        assert Without(s, gone) == [s[0]] + Without(s[1..], gone);
      }
    }
  }

  lemma {:induction false} WithoutSkips(s: seq<Entity>, gone: set<Entity>, x: Entity)
    requires x !in s
    ensures Without(s, gone + {x}) == Without(s, gone)
  {
    if s != [] {
      WithoutSkips(s[1..], gone, x);
    }
  }

  /** Filtering only moves a remaining entity towards the front. */
  lemma {:induction false} WithoutIndex(s: seq<Entity>, gone: set<Entity>, x: Entity)
    requires x in s && x !in gone
    ensures x in Without(s, gone)
    ensures IndexOf(Without(s, gone), x) <= IndexOf(s, x)
  {
    if s[0] != x {
      WithoutIndex(s[1..], gone, x);
      if s[0] !in gone {
        var w := Without(s, gone);
        assert w == [s[0]] + Without(s[1..], gone);
        assert w[1..] == Without(s[1..], gone);
      }
    }
  }

  // ---------------------------------------------------------------------------
  // Mass bookkeeping

  function Sum(ms: seq<real>): real
  {
    if ms == [] then 0.0 else ms[0] + Sum(ms[1..])
  }

  /** The masses of a list of entities, in list order. */
  function Masses(s: seq<Entity>): (ms: seq<real>)
    reads s
    ensures |ms| == |s| && forall k {:trigger ms[k]} :: 0 <= k < |s| ==> ms[k] == s[k].mass
  {
    if s == [] then [] else [s[0].mass] + Masses(s[1..])
  }

  /** The total mass of a list of entities. */
  function TotalMass(s: seq<Entity>): real
    reads s
  {
    if s == [] then 0.0 else s[0].mass + TotalMass(s[1..])
  }

  /** The total mass is the sum of the masses, as they were recorded in
      `before`, when none has changed since. */
  lemma {:induction false} TotalMassRecorded(s: seq<Entity>, before: seq<real>)
    requires |before| == |s| && forall k :: 0 <= k < |s| ==> s[k].mass == before[k]
    ensures TotalMass(s) == Sum(before)
  {
    if s != [] {
      assert forall k :: 0 <= k < |s| - 1 ==> s[1..][k] == s[k + 1] && before[1..][k] == before[k + 1];
      TotalMassRecorded(s[1..], before[1..]);
    }
  }

  /** The total mass of a distinct list in which entity `e` has gained `d` and
      no other mass has changed since they were recorded in `before`. */
  lemma {:induction false} TotalMassBump(s: seq<Entity>, e: Entity, before: seq<real>, d: real)
    requires Distinct(s) && e in s && |before| == |s|
    requires forall k :: 0 <= k < |s| && s[k] != e ==> s[k].mass == before[k]
    requires e.mass == before[IndexOf(s, e)] + d
    ensures TotalMass(s) == Sum(before) + d
  {
    assert forall k :: 0 <= k < |s| - 1 ==> s[1..][k] == s[k + 1] && before[1..][k] == before[k + 1];
    if s[0] == e {
      assert forall k :: 0 <= k < |s| - 1 ==> s[1..][k] != e;
      TotalMassRecorded(s[1..], before[1..]);
    } else {
      TotalMassBump(s[1..], e, before[1..], d);
    }
  }

  /** After `e`'s mass grew by `d` and nothing else changed, the total grew
      by `d` if `e` is in the list and is unchanged otherwise. */
  lemma MassAdded(s: seq<Entity>, e: Entity, before: seq<real>, d: real)
    requires Distinct(s) && |before| == |s|
    requires forall k :: 0 <= k < |s| && s[k] != e ==> s[k].mass == before[k]
    requires e in s ==> e.mass == before[IndexOf(s, e)] + d
    ensures e in s ==> TotalMass(s) == Sum(before) + d
    ensures e !in s ==> TotalMass(s) == Sum(before)
  {
    if e in s {
      TotalMassBump(s, e, before, d);
    } else {
      TotalMassRecorded(s, before);
    }
  }

  /** Removing an entity from a list takes exactly its mass off the total. */
  lemma {:induction false} TotalMassRemove(s: seq<Entity>, x: Entity)
    requires x in s
    ensures TotalMass(RemoveFirst(s, x)) == TotalMass(s) - x.mass
  {
    if s[0] != x {
      TotalMassRemove(s[1..], x);
      assert RemoveFirst(s, x)[1..] == RemoveFirst(s[1..], x);
    }
  }

  /** One entity of a distinct list has absorbed the mass of another, and no
      other mass has changed since they were recorded in `before`: once the
      other is removed, the total is what it was. */
  lemma ConsumeKeepsTotal(s: seq<Entity>, e: Entity, other: Entity, before: seq<real>)
    requires Distinct(s) && e in s && other in s && e != other && |before| == |s|
    requires forall k :: 0 <= k < |s| && s[k] != e ==> s[k].mass == before[k]
    requires e.mass == before[IndexOf(s, e)] + other.mass
    ensures TotalMass(RemoveFirst(s, other)) == Sum(before)
  {
    TotalMassBump(s, e, before, other.mass);
    TotalMassRemove(s, other);
  }

  // ---------------------------------------------------------------------------
  // The merges `_handle_entity_collisions` performs, on values

  /** The entities of a list paired with their attribute values. */
  function Candidates(s: seq<Entity>): (c: seq<(Entity, Body)>)
    reads s
    ensures |c| == |s| && forall k {:trigger c[k]} :: 0 <= k < |s| ==> c[k] == (s[k], s[k].AsBody())
  {
    if s == [] then [] else [(s[0], s[0].AsBody())] + Candidates(s[1..])
  }

  /** The masses of the bodies of a list of candidates. */
  function BodyMasses(ps: seq<(Entity, Body)>): (ms: seq<real>)
    ensures |ms| == |ps| && forall k {:trigger ms[k]} :: 0 <= k < |ps| ==> ms[k] == ps[k].1.mass
  {
    if ps == [] then [] else [ps[0].1.mass] + BodyMasses(ps[1..])
  }

  /** Entity `self`, whose attributes are `b`, goes through the candidates in
      order: it skips itself, skips what it does not collide with, and
      consumes what it collides with and weighs at most as much as it does at
      that moment. The result is its final mass and the consumed candidates in
      order. `collide` is the collision test. */
  function Absorb(self: Entity, b: Body, cands: seq<(Entity, Body)>, collide: (Body, Body) -> bool): (r: (real, seq<(Entity, Body)>))
    decreases |cands|
  {
    if cands == [] then (b.mass, [])
    else
      var (other, ob) := cands[0];
      if other == self then Absorb(self, b, cands[1..], collide)
      else if !collide(b, ob) then Absorb(self, b, cands[1..], collide)
      else if b.mass >= ob.mass then
        var rest := Absorb(self, b.(mass := b.mass + ob.mass), cands[1..], collide);
        (rest.0, [cands[0]] + rest.1)
      else Absorb(self, b, cands[1..], collide)
  }

  /** Every consumed candidate is a candidate other than the survivor, and the
      survivor's final mass is its starting mass plus exactly the masses it
      consumed. */
  lemma {:induction false} AbsorbAccounts(self: Entity, b: Body, cands: seq<(Entity, Body)>, collide: (Body, Body) -> bool)
    ensures var r := Absorb(self, b, cands, collide);
      && (forall p :: p in r.1 ==> p in cands && p.0 != self)
      && r.0 == b.mass + Sum(BodyMasses(r.1))
    decreases |cands|
  {
    if cands != [] {
      var (other, ob) := cands[0];
      if other == self || !collide(b, ob) || b.mass < ob.mass {
        AbsorbAccounts(self, b, cands[1..], collide);
      } else {
        var b' := b.(mass := b.mass + ob.mass);
        AbsorbAccounts(self, b', cands[1..], collide);
        var rest := Absorb(self, b', cands[1..], collide);
        assert BodyMasses([cands[0]] + rest.1) == [ob.mass] + BodyMasses(rest.1);
      }
    }
  }

  /** With no negative masses among the candidates, the survivor never loses
      mass, and every body it consumed weighed at most half its final mass. */
  lemma {:induction false} AbsorbOnlyLighter(self: Entity, b: Body, cands: seq<(Entity, Body)>, collide: (Body, Body) -> bool)
    requires forall p :: p in cands ==> p.1.mass >= 0.0
    ensures var r := Absorb(self, b, cands, collide);
      && b.mass <= r.0
      && forall p :: p in r.1 ==> 2.0 * p.1.mass <= r.0
    decreases |cands|
  {
    if cands != [] {
      var (other, ob) := cands[0];
      assert forall p :: p in cands[1..] ==> p in cands;
      if other == self || !collide(b, ob) || b.mass < ob.mass {
        AbsorbOnlyLighter(self, b, cands[1..], collide);
      } else {
        var b' := b.(mass := b.mass + ob.mass);
        AbsorbOnlyLighter(self, b', cands[1..], collide);
      }
    }
  }

  /** `Absorb` skips the survivor's own candidate, so what that candidate
      records does not matter: two candidate lists that agree on everything
      else give the same result. */
  lemma {:induction false} AbsorbSelfBlind(self: Entity, b: Body, c1: seq<(Entity, Body)>, c2: seq<(Entity, Body)>,
                                           collide: (Body, Body) -> bool)
    requires |c1| == |c2|
    requires forall k :: 0 <= k < |c1| ==> c1[k].0 == c2[k].0 && (c1[k].0 != self ==> c1[k].1 == c2[k].1)
    ensures Absorb(self, b, c1, collide) == Absorb(self, b, c2, collide)
    decreases |c1|
  {
    if c1 != [] {
      assert forall k :: 0 <= k < |c1| - 1 ==> c1[1..][k] == c1[k + 1] && c2[1..][k] == c2[k + 1];
      var (other, ob) := c1[0];
      if other == self || !collide(b, ob) || b.mass < ob.mass {
        AbsorbSelfBlind(self, b, c1[1..], c2[1..], collide);
      } else {
        AbsorbSelfBlind(self, b.(mass := b.mass + ob.mass), c1[1..], c2[1..], collide);
      }
    }
  }

  /** Walking the candidates one at a time: the survivor, with attributes `b`
      after candidate `i - 1` and having consumed `consumed` so far, finishes
      the whole walk from `start` by walking the candidates from `i` on. */
  ghost predicate Resumes(self: Entity, start: Body, b: Body, cands: seq<(Entity, Body)>, i: nat,
                          consumed: seq<(Entity, Body)>, collide: (Body, Body) -> bool)
    requires i <= |cands|
  {
    var r := Absorb(self, b, cands[i..], collide);
    (r.0, consumed + r.1) == Absorb(self, start, cands, collide)
  }

  /** The walk starts with nothing consumed and ends with everything decided. */
  lemma ResumesEnds(self: Entity, start: Body, b: Body, cands: seq<(Entity, Body)>,
                    consumed: seq<(Entity, Body)>, collide: (Body, Body) -> bool)
    ensures Resumes(self, start, start, cands, 0, [], collide)
    ensures Resumes(self, start, b, cands, |cands|, consumed, collide) ==>
      (b.mass, consumed) == Absorb(self, start, cands, collide)
  {
    assert cands[0..] == cands;
    assert [] + Absorb(self, start, cands, collide).1 == Absorb(self, start, cands, collide).1;
    assert cands[|cands|..] == [];
    assert consumed + [] == consumed;
  }

  /** Candidate `i` is consumed exactly when it is another entity that the
      survivor collides with and weighs at most as much; taking or skipping
      it keeps the walk on course. */
  lemma AbsorbNext(self: Entity, start: Body, b: Body, cands: seq<(Entity, Body)>, i: nat,
                   consumed: seq<(Entity, Body)>, collide: (Body, Body) -> bool)
    requires i < |cands| && Resumes(self, start, b, cands, i, consumed, collide)
    ensures cands[i].0 != self && collide(b, cands[i].1) && b.mass >= cands[i].1.mass ==>
      Resumes(self, start, b.(mass := b.mass + cands[i].1.mass), cands, i + 1, consumed + [cands[i]], collide)
    ensures !(cands[i].0 != self && collide(b, cands[i].1) && b.mass >= cands[i].1.mass) ==>
      Resumes(self, start, b, cands, i + 1, consumed, collide)
  {
    assert cands[i..][0] == cands[i];
    assert cands[i..][1..] == cands[i + 1..];
    if cands[i].0 != self && collide(b, cands[i].1) && b.mass >= cands[i].1.mass {
      var rest := Absorb(self, b.(mass := b.mass + cands[i].1.mass), cands[i + 1..], collide);
      assert Absorb(self, b, cands[i..], collide) == (rest.0, [cands[i]] + rest.1);
      assert consumed + ([cands[i]] + rest.1) == (consumed + [cands[i]]) + rest.1;
    }
  }

  /** The entities of a list of candidates. */
  function Owners(ps: seq<(Entity, Body)>): set<Entity>
  {
    set p | p in ps :: p.0
  }

  lemma OwnersSnoc(ps: seq<(Entity, Body)>, p: (Entity, Body))
    ensures Owners(ps + [p]) == Owners(ps) + {p.0}
  {
  }

  /** One candidate further on: whether or not candidate `i` is taken, the
      consumed entities stay in the visited prefix and apart from the survivor,
      the list without them loses exactly the taken one, and the walk stays
      on course. */
  lemma VisitStep(self: Entity, snapshot: seq<Entity>, cands: seq<(Entity, Body)>, start: Body, b: Body, i: nat,
                  consumed: seq<(Entity, Body)>, collide: (Body, Body) -> bool, take: bool)
    requires i < |snapshot| == |cands| && Distinct(snapshot) && cands[i].0 == snapshot[i]
    requires self !in Owners(consumed) && forall x :: x in Owners(consumed) ==> x in snapshot && IndexOf(snapshot, x) < i
    requires Resumes(self, start, b, cands, i, consumed, collide)
    requires take == (snapshot[i] != self && collide(b, cands[i].1) && b.mass >= cands[i].1.mass)
    ensures snapshot[i] in Without(snapshot, Owners(consumed)) && Distinct(Without(snapshot, Owners(consumed)))
    ensures take ==> var consumed' := consumed + [cands[i]];
      && self !in Owners(consumed')
      && (forall x :: x in Owners(consumed') ==> x in snapshot && IndexOf(snapshot, x) < i + 1)
      && Without(snapshot, Owners(consumed')) == RemoveFirst(Without(snapshot, Owners(consumed)), snapshot[i])
      && Resumes(self, start, b.(mass := b.mass + cands[i].1.mass), cands, i + 1, consumed', collide)
    ensures !take ==> Resumes(self, start, b, cands, i + 1, consumed, collide)
  {
    AbsorbNext(self, start, b, cands, i, consumed, collide);
    IndexOfDistinct(snapshot, i);
    RemoveFirstWithout(snapshot, Owners(consumed), snapshot[i]);
    WithoutDistinct(snapshot, Owners(consumed));
    OwnersSnoc(consumed, cands[i]);
  }

  // ---------------------------------------------------------------------------
  // The collision test `_check_collision`

  /** Two entities, given by their attributes, collide when their centres are
      closer than the sum of their radii. */
  function CheckCollision(b1: Body, b2: Body, math: Math): bool
    requires b1.density != 0.0 && b2.density != 0.0
  {
    Length(Sub(b1.position, b2.position), math) < BodyRadius(b1, math) + BodyRadius(b2, math)
  }

  /** The collision test in the form the engine takes it: `CheckCollision`,
      which is defined for nonzero densities only (Python raises on a zero
      one), as a total function on pairs of bodies. */
  function Collide(math: Math): (collide: (Body, Body) -> bool)
    ensures forall b1: Body, b2: Body {:trigger collide(b1, b2)} :: b1.density != 0.0 && b2.density != 0.0 ==>
      (collide(b1, b2) <==> CheckCollision(b1, b2, math))
  {
    (b1: Body, b2: Body) => b1.density != 0.0 && b2.density != 0.0 && CheckCollision(b1, b2, math)
  }

  /** The distance between two points does not depend on the order they are
      taken in. */
  lemma DistanceSymmetric(p: Vec, q: Vec, math: Math)
    ensures Length(Sub(p, q), math) == Length(Sub(q, p), math)
  {
    var d := Sub(p, q);
    assert Sub(q, p) == Vec(-d.x, -d.y);
    assert Mul(-d.x, -d.x) == Mul(d.x, d.x);
    assert Mul(-d.y, -d.y) == Mul(d.y, d.y);
  }

  /** The collision test is symmetric. */
  lemma CollisionSymmetric(b1: Body, b2: Body, math: Math)
    requires b1.density != 0.0 && b2.density != 0.0
    ensures CheckCollision(b1, b2, math) == CheckCollision(b2, b1, math)
  {
    DistanceSymmetric(b1.position, b2.position, math);
  }

  /** The test the engine is given is symmetric too, so which of two
      entities is being updated decides only who consumes whom. */
  lemma CollideSymmetric(b1: Body, b2: Body, math: Math)
    ensures Collide(math)(b1, b2) == Collide(math)(b2, b1)
  {
    if b1.density != 0.0 && b2.density != 0.0 {
      CollisionSymmetric(b1, b2, math);
    }
  }

  /** Two entities at the same place collide as soon as their radii do not
      both vanish (given only that the square root of zero is zero). */
  lemma ColocatedCollide(b1: Body, b2: Body, math: Math)
    requires math.sqrt(0.0) == 0.0 && b1.density != 0.0 && b2.density != 0.0
    requires b1.position == b2.position
    ensures BodyRadius(b1, math) + BodyRadius(b2, math) > 0.0 ==> CheckCollision(b1, b2, math)
  {
    assert Dot(Sub(b1.position, b2.position), Sub(b1.position, b2.position)) == 0.0;
  }

  /** With a sound square root, a distance is never negative, so colliding
      entities have radii that do not both vanish. */
  lemma CollisionNeedsRadius(b1: Body, b2: Body, math: Math)
    requires math.Sound() && b1.density != 0.0 && b2.density != 0.0
    ensures CheckCollision(b1, b2, math) ==> BodyRadius(b1, math) + BodyRadius(b2, math) > 0.0
  {
    LengthZeroIff(Sub(b1.position, b2.position), math);
  }

  // ---------------------------------------------------------------------------
  // The gravity sum of `_calculate_gravity_vector`, on values

  /** Newton's law of gravitation: g·m·mo / distance². */
  function Force(g: real, m: real, mo: real, distance: real): real
    requires distance != 0.0
  {
    SquareSign(distance);
    g * m * mo / Mul(distance, distance)
  }

  /** The acceleration that a mass `mo` at `q` gives a mass `m` at `p` under
      gravitational constant `g`: nothing at zero distance, otherwise
      g·m·mo/distance² divided by m, along the unit vector towards `q`. */
  function Attraction(g: real, p: Vec, m: real, q: Vec, mo: real, math: Math): Vec
    requires m != 0.0
  {
    var direction := Sub(q, p);
    var distance := Length(direction, math);
    if distance == 0.0 then Zero
    else
      var force := Force(g, m, mo, distance);
      var acceleration := force / m;
      Scale(Normalize(direction, distance), acceleration)
  }

  /** What entity `o` adds to the gravity vector of `e`: nothing if it is `e`. */
  function Contribution(e: Entity, o: Entity, g: real, math: Math): Vec
    reads e, o
    requires e.mass != 0.0
  {
    if o == e then Zero else Attraction(g, e.position, e.mass, o.position, o.mass, math)
  }

  /** The gravity vector of `e` from the first `n` entities of `others`,
      summed in list order. */
  function Pull(e: Entity, others: seq<Entity>, n: nat, g: real, math: Math): Vec
    reads e, others
    requires e.mass != 0.0 && n <= |others|
  {
    if n == 0 then Zero
    else Add(Pull(e, others, n - 1, g, math), Contribution(e, others[n - 1], g, math))
  }

  /** The acceleration does not depend on the attracted body's own mass. */
  lemma AttractionIgnoresOwnMass(g: real, p: Vec, m1: real, m2: real, q: Vec, mo: real, math: Math)
    requires m1 != 0.0 && m2 != 0.0
    ensures Attraction(g, p, m1, q, mo, math) == Attraction(g, p, m2, q, mo, math)
  {
    var distance := Length(Sub(q, p), math);
    if distance != 0.0 {
      SquareSign(distance);
      var dd := Mul(distance, distance);
      assert Force(g, m1, mo, distance) / m1 == g * mo / dd;
      assert Force(g, m2, mo, distance) / m2 == g * mo / dd;
    }
  }

  /** The acceleration is proportional to the gravitational constant. */
  lemma AttractionScales(g: real, k: real, p: Vec, m: real, q: Vec, mo: real, math: Math)
    requires m != 0.0
    ensures Attraction(k * g, p, m, q, mo, math) == Scale(Attraction(g, p, m, q, mo, math), k)
  {
    var direction := Sub(q, p);
    var distance := Length(direction, math);
    if distance != 0.0 {
      SquareSign(distance);
      var dd := Mul(distance, distance);
      var a := Force(g, m, mo, distance) / m;
      assert Force(k * g, m, mo, distance) / m == k * a;
      var u := Normalize(direction, distance);
      assert Scale(u, k * a) == Scale(Scale(u, a), k);
    }
  }

  /** Two bodies at the same place do not attract each other. */
  lemma ColocatedAttractsNothing(g: real, p: Vec, m: real, mo: real, math: Math)
    requires math.Sound() && m != 0.0
    ensures Attraction(g, p, m, p, mo, math) == Zero
  {
    assert Sub(p, p) == Zero;
    LengthZeroIff(Zero, math);
  }

  /** With a positive constant and a positive attracting mass, the acceleration
      points towards the attracting body. */
  lemma AttractionPointsToward(g: real, p: Vec, m: real, q: Vec, mo: real, math: Math)
    requires math.Sound() && m != 0.0 && g > 0.0 && mo > 0.0 && p != q
    ensures Dot(Attraction(g, p, m, q, mo, math), Sub(q, p)) > 0.0
  {
    var d := Sub(q, p);
    assert d != Zero;
    LengthZeroIff(d, math);
    SelfDotZero(d);
    var distance := Length(d, math);
    var dd := Mul(distance, distance);
    ProductPositive(distance, distance);
    var a := Force(g, m, mo, distance) / m;
    assert a == g * mo / dd;
    ProductPositive(g, mo);
    assert g * mo > 0.0;
    assert a > 0.0;
    var c := 1.0 / distance * a;
    assert c > 0.0;
    var v := Scale(Normalize(d, distance), a);
    assert v == Vec(d.x * (1.0 / distance) * a, d.y * (1.0 / distance) * a);
    assert Dot(v, d) == c * Dot(d, d);
    ProductPositive(c, Dot(d, d));
  }

  /** The gravity vector is proportional to the gravitational constant. */
  lemma {:induction false} PullScales(e: Entity, others: seq<Entity>, n: nat, g: real, k: real, math: Math)
    requires e.mass != 0.0 && n <= |others|
    ensures Pull(e, others, n, k * g, math) == Scale(Pull(e, others, n, g, math), k)
  {
    if n > 0 {
      var last := others[n - 1];
      PullScales(e, others, n - 1, g, k, math);
      var c := Contribution(e, last, g, math);
      if last != e {
        AttractionScales(g, k, e.position, e.mass, last.position, last.mass, math);
      }
      assert Contribution(e, last, k * g, math) == Scale(c, k);
      ScaleAdd(Pull(e, others, n - 1, g, math), c, k);
    }
  }

  lemma ScaleAdd(a: Vec, b: Vec, k: real)
    ensures Add(Scale(a, k), Scale(b, k)) == Scale(Add(a, b), k)
  {
    assert (a.x + b.x) * k == a.x * k + b.x * k;
    assert (a.y + b.y) * k == a.y * k + b.y * k;
  }

  /** With time scale zero the gravity vector is the zero vector. */
  lemma PausedPullIsZero(e: Entity, others: seq<Entity>, math: Math)
    requires e.mass != 0.0
    ensures Pull(e, others, |others|, Settings.GRAVITY_CONSTANT * 0.0, math) == Zero
  {
    PullScales(e, others, |others|, Settings.GRAVITY_CONSTANT, 0.0, math);
    assert 0.0 * Settings.GRAVITY_CONSTANT == Settings.GRAVITY_CONSTANT * 0.0;
  }

  // ---------------------------------------------------------------------------
  // The trace of `update`'s walk over the live list

  /** The walk of `update` over its first |processed| positions, starting
      from the list `original`: `lists[k]` is the list when position `k` is
      visited, the entity there is `processed[k]`, and its update removes
      `gones[k]`, not the entity itself. While nothing has been removed, the
      walk has followed `original` position by position. */
  ghost predicate Traced(original: seq<Entity>, removed: set<Entity>, lists: seq<seq<Entity>>,
                         processed: seq<Entity>, gones: seq<set<Entity>>)
  {
    && |lists| == |processed| + 1 && |gones| == |processed| && lists[0] == original
    && (forall k {:trigger lists[k]} :: 0 <= k < |processed| ==> k < |lists[k]| && lists[k][k] == processed[k])
    && (forall k {:trigger gones[k]} :: 0 <= k < |processed| ==>
          processed[k] !in gones[k] && lists[k + 1] == Without(lists[k], gones[k]))
    && (removed == {} ==>
          && |processed| <= |original|
          && forall k {:trigger processed[k]} :: 0 <= k < |processed| ==> processed[k] == original[k])
  }

  /** The walk starts with nothing visited. */
  lemma TracedStart(original: seq<Entity>)
    ensures Traced(original, {}, [original], [], [])
  {
  }

  /** Visiting one more position – the entity `e` at position |processed| of
      the current list, whose update removes `gone` but not `e` – extends the
      walk. */
  lemma TracedSnoc(original: seq<Entity>, removed: set<Entity>, lists: seq<seq<Entity>>, processed: seq<Entity>,
                   gones: seq<set<Entity>>, e: Entity, gone: set<Entity>, after: seq<Entity>)
    requires Traced(original, removed, lists, processed, gones)
    requires lists[|processed|] == Without(original, removed)
    requires |processed| < |lists[|processed|]| && lists[|processed|][|processed|] == e
    requires e !in gone && after == Without(lists[|processed|], gone)
    ensures Traced(original, removed + gone, lists + [after], processed + [e], gones + [gone])
  {
    var i := |processed|;
    var lists', processed', gones' := lists + [after], processed + [e], gones + [gone];
    forall k | 0 <= k < i + 1
      ensures k < |lists'[k]| && lists'[k][k] == processed'[k]
    {
      if k < i {
        assert lists'[k] == lists[k] && processed'[k] == processed[k];
      }
    }
    forall k | 0 <= k < i + 1
      ensures processed'[k] !in gones'[k] && lists'[k + 1] == Without(lists'[k], gones'[k])
    {
      if k < i {
        assert gones'[k] == gones[k] && processed'[k] == processed[k];
        assert lists'[k] == lists[k] && lists'[k + 1] == lists[k + 1];
      }
    }
    if removed + gone == {} {
      assert removed == {} && gone == {};
      WithoutNothing(original);
      forall k | 0 <= k < i + 1
        ensures processed'[k] == original[k]
      {
        if k < i {
          assert processed'[k] == processed[k];
        }
      }
    }
  }

  // ---------------------------------------------------------------------------
  // `update` on values

  /** No candidate has a nonpositive mass. */
  predicate Positive(c: seq<(Entity, Body)>)
  {
    forall p :: p in c ==> p.1.mass > 0.0
  }

  /** A list whose entities all have positive mass gives positive candidates. */
  lemma CandidatesPositive(s: seq<Entity>)
    requires forall x :: x in s ==> x.mass > 0.0
    ensures Positive(Candidates(s))
  {
    var c := Candidates(s);
    forall p | p in c
      ensures p.1.mass > 0.0
    {
      var k :| 0 <= k < |c| && c[k] == p;
      assert s[k] in s;
    }
  }

  /** The candidates whose entities are not in `gone`, in order. */
  function Drop(c: seq<(Entity, Body)>, gone: set<Entity>): (r: seq<(Entity, Body)>)
    ensures |r| <= |c|
    ensures forall p :: p in r ==> p in c && p.0 !in gone
  {
    if c == [] then []
    else if c[0].0 in gone then Drop(c[1..], gone)
    else [c[0]] + Drop(c[1..], gone)
  }

  /** The candidates with the attributes of entity `e` replaced by `b`. */
  function Replace(c: seq<(Entity, Body)>, e: Entity, b: Body): (r: seq<(Entity, Body)>)
    ensures |r| == |c|
    ensures forall k {:trigger r[k]} :: 0 <= k < |c| ==> r[k] == (c[k].0, if c[k].0 == e then b else c[k].1)
  {
    if c == [] then [] else [(c[0].0, if c[0].0 == e then b else c[0].1)] + Replace(c[1..], e, b)
  }

  /** Filtering a list and pairing it with its attributes commute. */
  lemma {:induction false} CandidatesWithout(s: seq<Entity>, gone: set<Entity>)
    ensures Candidates(Without(s, gone)) == Drop(Candidates(s), gone)
  {
    if s != [] {
      CandidatesWithout(s[1..], gone);
      assert Candidates(s)[1..] == Candidates(s[1..]);
      if s[0] !in gone {
        assert Without(s, gone) == [s[0]] + Without(s[1..], gone);
        assert Without(s, gone)[1..] == Without(s[1..], gone);
      }
    }
  }

  /** `Pull` on values: the gravity vector of entity `self`, whose attributes
      are `b`, from the first `n` candidates. */
  function BodyPull(self: Entity, b: Body, c: seq<(Entity, Body)>, n: nat, g: real, math: Math): Vec
    requires b.mass != 0.0 && n <= |c|
  {
    if n == 0 then Zero
    else
      var (o, ob) := c[n - 1];
      Add(BodyPull(self, b, c, n - 1, g, math),
          if o == self then Zero else Attraction(g, b.position, b.mass, ob.position, ob.mass, math))
  }

  /** The gravity vector of an entity is `BodyPull` over the candidates of the
      list. */
  lemma {:induction false} PullOnValues(e: Entity, s: seq<Entity>, n: nat, g: real, math: Math)
    requires e.mass != 0.0 && n <= |s|
    ensures Pull(e, s, n, g, math) == BodyPull(e, e.AsBody(), Candidates(s), n, g, math)
  {
    if n > 0 {
      PullOnValues(e, s, n - 1, g, math);
    }
  }

  /** An entity's motion in `_update_entity`: its velocity vector plus the
      gravity vector `pull` gives the new velocity and direction, then the
      entity moves to what `advance` gives and remembers where it was. */
  function Moved(b: Body, pull: Vec, timeScale: real, math: Math, advance: (Body, real) -> Vec): Body
  {
    var v := Add(VelocityOf(b.velocity, b.direction, math), pull);
    var moving := b.(velocity := Length(v, math), direction := math.atan2(v.y, v.x));
    moving.(oldPosition := moving.position, position := advance(moving, timeScale))
  }

  /** The attributes of the entity at position `i` after its motion, with
      gravity from all the candidates. */
  function StepStart(c: seq<(Entity, Body)>, i: nat, timeScale: real, math: Math, advance: (Body, real) -> Vec): Body
    requires i < |c| && c[i].1.mass != 0.0
  {
    Moved(c[i].1, BodyPull(c[i].0, c[i].1, c, |c|, Settings.GRAVITY_CONSTANT * timeScale, math), timeScale, math, advance)
  }

  /** The collisions of the entity at position `i` after its motion, against
      the candidates. */
  function StepAbsorb(c: seq<(Entity, Body)>, i: nat, timeScale: real, math: Math, collide: (Body, Body) -> bool,
                      advance: (Body, real) -> Vec): (real, seq<(Entity, Body)>)
    requires i < |c| && c[i].1.mass != 0.0
  {
    Absorb(c[i].0, StepStart(c, i, timeScale, math, advance), c, collide)
  }

  /** `_update_entity` of the entity at position `i`, on values: it moves, takes
      the mass `Absorb` gives, and the entities it consumed leave. Masses stay
      positive and the list never grows. */
  function UpdateStep(c: seq<(Entity, Body)>, i: nat, timeScale: real, math: Math, collide: (Body, Body) -> bool,
                      advance: (Body, real) -> Vec): (r: seq<(Entity, Body)>)
    requires Positive(c) && i < |c|
    ensures |r| <= |c| && Positive(r)
  {
    assert c[i] in c;
    var start := StepStart(c, i, timeScale, math, advance);
    var r := StepAbsorb(c, i, timeScale, math, collide, advance);
    AbsorbOnlyLighter(c[i].0, start, c, collide);
    Drop(Replace(c, c[i].0, start.(mass := r.0)), Owners(r.1))
  }

  /** A whole tick of `update` on values, from position `i` on: each position
      of the live list in turn takes `UpdateStep`, until the walk passes the
      end. */
  function Tick(c: seq<(Entity, Body)>, i: nat, timeScale: real, math: Math, collide: (Body, Body) -> bool,
                advance: (Body, real) -> Vec): seq<(Entity, Body)>
    requires Positive(c)
    decreases |c| - i
  {
    if i >= |c| then c
    else Tick(UpdateStep(c, i, timeScale, math, collide, advance), i + 1, timeScale, math, collide, advance)
  }

  /** The walk replayed on values: `entries[k]` is what the candidates were
      when position `k` was visited, the entity there is `processed[k]`, its
      update turns them into `entries[k + 1]`, and it removes exactly the
      entities its collisions consume. */
  ghost predicate Replayed(entries: seq<seq<(Entity, Body)>>, processed: seq<Entity>, gones: seq<set<Entity>>,
                           timeScale: real, math: Math, collide: (Body, Body) -> bool, advance: (Body, real) -> Vec)
  {
    && |entries| == |processed| + 1 && |gones| == |processed|
    && Positive(entries[|processed|])
    && forall k {:trigger gones[k]} :: 0 <= k < |processed| ==>
         && Positive(entries[k]) && k < |entries[k]| && entries[k][k].0 == processed[k]
         && entries[k + 1] == UpdateStep(entries[k], k, timeScale, math, collide, advance)
         && gones[k] == Owners(StepAbsorb(entries[k], k, timeScale, math, collide, advance).1)
  }

  /** A tick that has not passed the end updates the next position. */
  lemma TickNext(c: seq<(Entity, Body)>, i: nat, timeScale: real, math: Math, collide: (Body, Body) -> bool,
                 advance: (Body, real) -> Vec)
    requires Positive(c) && i < |c|
    ensures Tick(c, i, timeScale, math, collide, advance)
         == Tick(UpdateStep(c, i, timeScale, math, collide, advance), i + 1, timeScale, math, collide, advance)
  {
  }

  /** Replaying the first `n` positions leaves the rest of the tick to do:
      `Tick` from position `n` of `entries[n]` is the whole `Tick`. */
  lemma {:induction false} ReplayedTick(entries: seq<seq<(Entity, Body)>>, processed: seq<Entity>, gones: seq<set<Entity>>,
                                        timeScale: real, math: Math, collide: (Body, Body) -> bool, advance: (Body, real) -> Vec,
                                        n: nat)
    requires Replayed(entries, processed, gones, timeScale, math, collide, advance) && n <= |processed|
    ensures Positive(entries[0]) && Positive(entries[n])
    ensures Tick(entries[n], n, timeScale, math, collide, advance) == Tick(entries[0], 0, timeScale, math, collide, advance)
  {
    if n > 0 {
      ReplayedTick(entries, processed, gones, timeScale, math, collide, advance, n - 1);
      assert gones[n - 1] == gones[n - 1];
      TickNext(entries[n - 1], n - 1, timeScale, math, collide, advance);
      if n < |processed| {
        assert gones[n] == gones[n];
      }
    } else if |processed| > 0 {
      assert gones[0] == gones[0];
    }
  }

  /** Replaying one more position extends the replay. */
  lemma ReplayedSnoc(entries: seq<seq<(Entity, Body)>>, processed: seq<Entity>, gones: seq<set<Entity>>,
                     timeScale: real, math: Math, collide: (Body, Body) -> bool, advance: (Body, real) -> Vec,
                     e: Entity, gone: set<Entity>, next: seq<(Entity, Body)>)
    requires Replayed(entries, processed, gones, timeScale, math, collide, advance)
    requires |processed| < |entries[|processed|]| && entries[|processed|][|processed|].0 == e
    requires next == UpdateStep(entries[|processed|], |processed|, timeScale, math, collide, advance)
    requires gone == Owners(StepAbsorb(entries[|processed|], |processed|, timeScale, math, collide, advance).1)
    ensures Replayed(entries + [next], processed + [e], gones + [gone], timeScale, math, collide, advance)
  {
    var i := |processed|;
    var entries', processed', gones' := entries + [next], processed + [e], gones + [gone];
    forall k | 0 <= k < i + 1
      ensures && Positive(entries'[k]) && k < |entries'[k]| && entries'[k][k].0 == processed'[k]
              && entries'[k + 1] == UpdateStep(entries'[k], k, timeScale, math, collide, advance)
              && gones'[k] == Owners(StepAbsorb(entries'[k], k, timeScale, math, collide, advance).1)
    {
      if k < i {
        assert gones'[k] == gones[k] && processed'[k] == processed[k];
        assert entries'[k] == entries[k] && entries'[k + 1] == entries[k + 1];
      }
    }
  }

  // ---------------------------------------------------------------------------
  // The engine

  class PhysicsEngine {
    /** The list the engine works on, shared with its creator. */
    const entities: EntityList

    /** What every list the program hands the engine satisfies: no entity
        twice, every mass positive. */
    ghost predicate Valid()
      reads this, entities, entities.items
    {
      && Distinct(entities.items)
      && forall x :: x in entities.items ==> x.mass > 0.0
    }

    constructor (entities: EntityList)
      requires Distinct(entities.items)
      requires forall x :: x in entities.items ==> x.mass > 0.0
      ensures this.entities == entities
      ensures Valid()
    {
      this.entities := entities;
    }

    /** `_calculate_gravity_vector`: the sum over the list, in order, of what
        every other entity at a nonzero distance contributes, with the
        constant GRAVITY_CONSTANT * timeScale. */
    method CalculateGravityVector(e: Entity, timeScale: real, math: Math) returns (gravity: Vec)
      requires e.mass != 0.0
      ensures gravity == Pull(e, entities.items, |entities.items|, Settings.GRAVITY_CONSTANT * timeScale, math)
    {
      var g := Settings.GRAVITY_CONSTANT * timeScale;
      var others := entities.items;
      gravity := Zero;
      var i := 0;
      while i < |others|
        invariant 0 <= i <= |others|
        invariant gravity == Pull(e, others, i, g, math)
      {
        var other := others[i];
        if other != e {
          var direction := Sub(other.position, e.position);
          var distance := Length(direction, math);
          if distance != 0.0 {
            var force := Force(g, e.mass, other.mass, distance);
            var acceleration := force / e.mass;
            assert Contribution(e, other, g, math) == Scale(Normalize(direction, distance), acceleration);
            gravity := Add(gravity, Scale(Normalize(direction, distance), acceleration));
          } else {
            assert Contribution(e, other, g, math) == Zero;
          }
        } else {
          assert Contribution(e, other, g, math) == Zero;
        }
        i := i + 1;
      }
    }

    /** The body of the loop in `_handle_entity_collisions`, for one entity
        `other` of the copy: `e` consumes `other` and `other` leaves the list
        exactly when `other` is not `e`, the two collide, and `e` weighs at
        least as much; otherwise nothing changes. Either way the total mass
        of the list is unchanged. */
    method Visit(e: Entity, other: Entity, collide: (Body, Body) -> bool) returns (ghost took: bool)
      requires Distinct(entities.items) && e in entities.items && other in entities.items
      modifies entities, e`mass
      ensures took == (other != e && collide(old(e.AsBody()), old(other.AsBody())) && old(e.mass) >= old(other.mass))
      ensures took ==> e.mass == old(e.mass) + old(other.mass) && entities.items == RemoveFirst(old(entities.items), other)
      ensures !took ==> e.mass == old(e.mass) && entities.items == old(entities.items)
      ensures e.AsBody() == old(e.AsBody()).(mass := e.mass)
      ensures TotalMass(entities.items) == old(TotalMass(entities.items))
    {
      took := false;
      if other == e {
        return;
      }
      if !collide(e.AsBody(), other.AsBody()) {
        return;
      }
      if e.mass >= other.mass {
        ghost var items := entities.items;
        ghost var before := Masses(items);
        TotalMassRecorded(items, before);
        e.Consume(other);
        entities.items := RemoveFirst(entities.items, other);
        ConsumeKeepsTotal(items, e, other, before);
        took := true;
      }
    }

    /** One turn of the loop in `_handle_entity_collisions`, with its
        bookkeeping: before candidate `i` of the copy `snapshot` is visited,
        `e` has the attributes `b`, has consumed `consumed`, and the list is
        the copy without their owners; afterwards the same holds one
        candidate further on, and the total mass is unchanged. */
    method VisitNext(e: Entity, snapshot: seq<Entity>, i: nat, collide: (Body, Body) -> bool,
                     ghost cands: seq<(Entity, Body)>, ghost start: Body, ghost b: Body, ghost consumed: seq<(Entity, Body)>)
      returns (ghost b': Body, ghost consumed': seq<(Entity, Body)>)
      requires i < |snapshot| == |cands| && Distinct(snapshot) && e in snapshot
      requires cands[i].0 == snapshot[i] && (snapshot[i] != e ==> snapshot[i].AsBody() == cands[i].1)
      requires e.AsBody() == b && e !in Owners(consumed)
      requires forall x :: x in Owners(consumed) ==> x in snapshot && IndexOf(snapshot, x) < i
      requires entities.items == Without(snapshot, Owners(consumed))
      requires Resumes(e, start, b, cands, i, consumed, collide)
      modifies entities, e`mass
      ensures e.AsBody() == b' && e !in Owners(consumed')
      ensures forall x :: x in Owners(consumed') ==> x in snapshot && IndexOf(snapshot, x) < i + 1
      ensures entities.items == Without(snapshot, Owners(consumed'))
      ensures Resumes(e, start, b', cands, i + 1, consumed', collide)
      ensures TotalMass(entities.items) == old(TotalMass(entities.items))
    {
      var other := snapshot[i];
      ghost var take := other != e && collide(b, cands[i].1) && b.mass >= cands[i].1.mass;
      VisitStep(e, snapshot, cands, start, b, i, consumed, collide, take);
      ghost var took := Visit(e, other, collide);
      assert took == take;
      b', consumed' := b, consumed;
      if took {
        consumed' := consumed + [cands[i]];
        b' := b.(mass := b.mass + cands[i].1.mass);
      }
    }

    /** `_handle_entity_collisions`: `e` walks a copy of the list taken on entry
        and consumes as `Absorb` says; every consumed entity leaves the list.
        `e` stays, the rest keep their order, and the total mass of the list is
        unchanged. */
    method HandleEntityCollisions(e: Entity, collide: (Body, Body) -> bool) returns (ghost consumed: seq<(Entity, Body)>)
      requires Valid() && e in entities.items
      modifies entities, e`mass
      ensures Valid() && e in entities.items
      ensures (e.mass, consumed) == old(Absorb(e, e.AsBody(), Candidates(entities.items), collide))
      ensures entities.items == Without(old(entities.items), Owners(consumed))
      ensures TotalMass(entities.items) == old(TotalMass(entities.items))
    {
      var snapshot := entities.items;
      ghost var cands := Candidates(snapshot);
      ghost var start := e.AsBody();
      ghost var b := start;
      consumed := [];
      WithoutNothing(snapshot);
      ResumesEnds(e, start, b, cands, consumed, collide);
      assert Owners(consumed) == {};
      var i := 0;
      while i < |snapshot|
        invariant 0 <= i <= |snapshot|
        invariant e.AsBody() == b && e !in Owners(consumed)
        invariant forall x :: x in Owners(consumed) ==> x in snapshot && IndexOf(snapshot, x) < i
        invariant entities.items == Without(snapshot, Owners(consumed))
        invariant Resumes(e, start, b, cands, i, consumed, collide)
        invariant TotalMass(entities.items) == old(TotalMass(entities.items))
      {
        assert snapshot[i] != e ==> snapshot[i].AsBody() == cands[i].1;
        b, consumed := VisitNext(e, snapshot, i, collide, cands, start, b, consumed);
        i := i + 1;
      }
      ResumesEnds(e, start, b, cands, consumed, collide);
      WithoutDistinct(snapshot, Owners(consumed));
      AbsorbOnlyLighter(e, start, cands, collide);
    }

    /** `list.remove` on the engine's list: the first occurrence of `other`,
        its only one, leaves the list, and its mass leaves the total. */
    method Remove(other: Entity)
      requires Valid() && other in entities.items
      modifies entities
      ensures Valid()
      ensures entities.items == RemoveFirst(old(entities.items), other)
      ensures forall x :: x in entities.items <==> x in old(entities.items) && x != other
      ensures TotalMass(entities.items) == old(TotalMass(entities.items)) - other.mass
    {
      var items := entities.items;
      assert Distinct(RemoveFirst(items, other))
        && forall x :: x in RemoveFirst(items, other) <==> x in items && x != other by {
        RemoveFirstWithout(items, {}, other);
        WithoutNothing(items);
        WithoutDistinct(items, {other});
        assert {} + {other} == {other};
      }
      TotalMassRemove(items, other);
      entities.items := RemoveFirst(items, other);
    }

    /** `_merge_entities`: `other` leaves the list, its mass is added to
        `entity`'s, and `entity` takes the combined momentum: its velocity
        vector times its old mass plus `other`'s velocity vector times
        `other`'s mass as it is read after the addition (so when the two are
        one entity, the doubled mass). Python raises when `other` is not in
        the list or the new mass is zero. */
    method MergeEntities(entity: Entity, other: Entity, math: Math)
      requires Valid() && other in entities.items && entity.mass + other.mass != 0.0
      modifies entities, entity
      ensures Valid()
      ensures entities.items == RemoveFirst(old(entities.items), other)
      ensures other !in entities.items
      ensures entity.mass == old(entity.mass) + old(other.mass)
      ensures var momentum := Add(Scale(old(entity.VelocityVector(math)), old(entity.mass)),
                                  Scale(old(other.VelocityVector(math)), other.mass));
        entity.AsBody() == old(entity.AsBody()).(mass := entity.mass,
          velocity := Length(momentum, math) / entity.mass,
          direction := math.atan2(momentum.y, momentum.x))
      ensures entity.image == old(entity.image)
      ensures entity != other && entity in old(entities.items) ==>
        TotalMass(entities.items) == old(TotalMass(entities.items))
      ensures entity == other || entity !in old(entities.items) ==>
        TotalMass(entities.items) == old(TotalMass(entities.items)) - old(other.mass)
    {
      ghost var body := entity.AsBody();
      ghost var entityVelocity := entity.VelocityVector(math);
      ghost var otherVelocity := other.VelocityVector(math);
      Remove(other);
      ghost var rest := entities.items;
      ghost var restMasses := Masses(rest);
      TotalMassRecorded(rest, restMasses);
      var oldMass := entity.mass;
      entity.mass := entity.mass + other.mass;
      var entityMomentum := Scale(entity.VelocityVector(math), oldMass);
      var otherMomentum := Scale(other.VelocityVector(math), other.mass);
      assert entityMomentum == Scale(entityVelocity, oldMass);
      assert otherMomentum == Scale(otherVelocity, other.mass);
      var totalMomentum := Add(entityMomentum, otherMomentum);
      entity.velocity := Length(totalMomentum, math) / entity.mass;
      entity.direction := math.atan2(totalMomentum.y, totalMomentum.x);
      assert entity.AsBody() == body.(mass := entity.mass, velocity := entity.velocity, direction := entity.direction);
      MassAdded(rest, entity, restMasses, old(other.mass));
    }

    /** The motion half of `_update_entity`: the velocity becomes the length
        of the old velocity vector plus the gravity vector and the direction
        its angle, and the entity moves to the position `advance` gives for
        its new motion. No other attribute changes. */
    method Accelerate(e: Entity, timeScale: real, math: Math, advance: (Body, real) -> Vec)
      requires e.mass != 0.0
      modifies e
      ensures e.AsBody() == Moved(old(e.AsBody()), old(Pull(e, entities.items, |entities.items|, Settings.GRAVITY_CONSTANT * timeScale, math)),
                                  timeScale, math, advance)
      ensures e.image == old(e.image)
    {
      var velocityVector := e.VelocityVector(math);
      var gravityVector := CalculateGravityVector(e, timeScale, math);
      var newVelocity := Add(velocityVector, gravityVector);
      e.velocity := Length(newVelocity, math);
      e.direction := math.atan2(newVelocity.y, newVelocity.x);
      var next := advance(e.AsBody(), timeScale);
      e.Move(next.x, next.y);
    }

    /** `_update_entity`: the entity takes its new motion (`Accelerate`), then
        resolves its collisions against the list as it stood on entry, as
        `Absorb` says. Nothing else about it changes. */
    method UpdateEntity(e: Entity, timeScale: real, math: Math, collide: (Body, Body) -> bool, advance: (Body, real) -> Vec)
      returns (ghost gone: set<Entity>)
      requires Valid() && e in entities.items
      modifies entities, e
      ensures Valid() && e in entities.items && e !in gone
      ensures entities.items == Without(old(entities.items), gone)
      ensures TotalMass(entities.items) == old(TotalMass(entities.items))
      ensures e.mass >= old(e.mass)
      ensures e.AsBody() == Moved(old(e.AsBody()), old(Pull(e, entities.items, |entities.items|, Settings.GRAVITY_CONSTANT * timeScale, math)),
                                  timeScale, math, advance).(mass := e.mass)
      ensures e.image == old(e.image)
      ensures var r := Absorb(e, e.AsBody().(mass := old(e.mass)), old(Candidates(entities.items)), collide);
        e.mass == r.0 && gone == Owners(r.1)
    {
      ghost var masses := Masses(entities.items);
      TotalMassRecorded(entities.items, masses);
      ghost var entry := Candidates(entities.items);
      Accelerate(e, timeScale, math, advance);
      TotalMassRecorded(entities.items, masses);
      ghost var before := entities.items;
      ghost var cands := Candidates(before);
      ghost var start := e.AsBody();
      assert forall k :: 0 <= k < |before| ==> cands[k].0 == entry[k].0 && (cands[k].0 != e ==> cands[k].1 == entry[k].1);
      AbsorbSelfBlind(e, start, cands, entry, collide);
      var consumed := HandleEntityCollisions(e, collide);
      gone := Owners(consumed);
      AbsorbOnlyLighter(e, start, cands, collide);
    }

    /** `_update_entity` of the entity at position `i`, stated on values: the
        candidates of the list afterwards are what `UpdateStep` makes of the
        candidates before, and the entities removed are the ones the
        entity's collisions consume. */
    method UpdateAt(i: nat, timeScale: real, math: Math, collide: (Body, Body) -> bool, advance: (Body, real) -> Vec)
      returns (ghost gone: set<Entity>)
      requires Valid() && i < |entities.items|
      modifies entities, entities.items[i]
      ensures Valid() && old(entities.items)[i] in entities.items && old(entities.items)[i] !in gone
      ensures entities.items == Without(old(entities.items), gone)
      ensures TotalMass(entities.items) == old(TotalMass(entities.items))
      ensures Positive(old(Candidates(entities.items)))
      ensures Candidates(entities.items) == UpdateStep(old(Candidates(entities.items)), i, timeScale, math, collide, advance)
      ensures gone == Owners(StepAbsorb(old(Candidates(entities.items)), i, timeScale, math, collide, advance).1)
    {
      var entity := entities.items[i];
      ghost var before := entities.items;
      ghost var c := Candidates(before);
      CandidatesPositive(before);
      assert c[i] == (entity, entity.AsBody());
      PullOnValues(entity, before, |before|, Settings.GRAVITY_CONSTANT * timeScale, math);
      gone := UpdateEntity(entity, timeScale, math, collide, advance);
      ghost var r := StepAbsorb(c, i, timeScale, math, collide, advance);
      assert entity.AsBody() == StepStart(c, i, timeScale, math, advance).(mass := r.0);
      forall k | 0 <= k < |before|
        ensures Candidates(before)[k] == Replace(c, entity, entity.AsBody())[k]
      {
      }
      assert Candidates(before) == Replace(c, entity, entity.AsBody());
      CandidatesWithout(before, gone);
      assert UpdateStep(c, i, timeScale, math, collide, advance) == Drop(Replace(c, entity, entity.AsBody()), gone);
    }

    /** One turn of the loop in `update`: the entity at position `i` of the
        live list, not updated before, is updated; it is not among the
        entities it removes, and the updated ones all still come before
        position `i + 1`. */
    method UpdateNext(i: nat, timeScale: real, math: Math, collide: (Body, Body) -> bool, advance: (Body, real) -> Vec,
                      ghost original: seq<Entity>, ghost removed: set<Entity>, ghost processed: seq<Entity>)
      returns (ghost e: Entity, ghost gone: set<Entity>)
      requires Valid() && i < |entities.items|
      requires entities.items == Without(original, removed)
      requires Distinct(processed) && forall x :: x in processed ==> x in original
      requires forall x :: x in processed && x in entities.items ==> IndexOf(entities.items, x) < i
      modifies entities, entities.items[i]
      ensures Valid()
      ensures e == old(entities.items)[i] && e !in gone
      ensures entities.items == Without(old(entities.items), gone)
      ensures entities.items == Without(original, removed + gone)
      ensures TotalMass(entities.items) == old(TotalMass(entities.items))
      ensures Distinct(processed + [e]) && forall x :: x in processed + [e] ==> x in original
      ensures forall x :: x in processed + [e] && x in entities.items ==> IndexOf(entities.items, x) < i + 1
      ensures Positive(old(Candidates(entities.items)))
      ensures Candidates(entities.items) == UpdateStep(old(Candidates(entities.items)), i, timeScale, math, collide, advance)
      ensures gone == Owners(StepAbsorb(old(Candidates(entities.items)), i, timeScale, math, collide, advance).1)
    {
      e := entities.items[i];
      ghost var before := entities.items;
      assert e in original;
      IndexOfDistinct(before, i);
      assert e !in processed;
      gone := UpdateAt(i, timeScale, math, collide, advance);
      forall x | x in processed + [e] && x in entities.items
        ensures IndexOf(entities.items, x) < i + 1
      {
        WithoutIndex(before, gone, x);
      }
      WithoutTwice(original, removed, gone);
      DistinctSnoc(processed, e);
    }

    /** Where `update`'s walk stands after `i` positions: the list is the
        starting one without the entities removed so far, the updated
        entities are distinct and all come before position `i`, and the
        trace and its replay on values reach the current list. */
    ghost predicate Walking(i: nat, original: seq<Entity>, removed: set<Entity>, processed: seq<Entity>,
                            lists: seq<seq<Entity>>, gones: seq<set<Entity>>, entries: seq<seq<(Entity, Body)>>,
                            timeScale: real, math: Math, collide: (Body, Body) -> bool, advance: (Body, real) -> Vec)
      reads this, entities, entities.items
    {
      && i == |processed| && Valid()
      && entities.items == Without(original, removed)
      && Distinct(processed) && (forall x :: x in processed ==> x in original)
      && (forall x :: x in processed && x in entities.items ==> IndexOf(entities.items, x) < i)
      && Traced(original, removed, lists, processed, gones) && lists[i] == entities.items
      && Replayed(entries, processed, gones, timeScale, math, collide, advance)
      && entries[i] == Candidates(entities.items)
    }

    /** One turn of the loop in `update` with its trace: `UpdateNext`, then the
        trace and its replay each grow by the position just visited. */
    method WalkStep(i: nat, timeScale: real, math: Math, collide: (Body, Body) -> bool, advance: (Body, real) -> Vec,
                    ghost original: seq<Entity>, ghost removed: set<Entity>, ghost processed: seq<Entity>,
                    ghost lists: seq<seq<Entity>>, ghost gones: seq<set<Entity>>, ghost entries: seq<seq<(Entity, Body)>>)
      returns (ghost removed': set<Entity>, ghost processed': seq<Entity>,
               ghost lists': seq<seq<Entity>>, ghost gones': seq<set<Entity>>, ghost entries': seq<seq<(Entity, Body)>>)
      requires Walking(i, original, removed, processed, lists, gones, entries, timeScale, math, collide, advance)
      requires Without(original, {}) == original
      requires i < |entities.items|
      modifies entities, entities.items[i]
      ensures Walking(i + 1, original, removed', processed', lists', gones', entries', timeScale, math, collide, advance)
      ensures TotalMass(entities.items) == old(TotalMass(entities.items))
      ensures |entities.items| <= old(|entities.items|)
      ensures entries'[0] == entries[0]
    {
      ghost var before := entities.items;
      assert before[i] in before && before[i] in original;
      ghost var e, gone := UpdateNext(i, timeScale, math, collide, advance, original, removed, processed);
      TracedSnoc(original, removed, lists, processed, gones, e, gone, entities.items);
      ReplayedSnoc(entries, processed, gones, timeScale, math, collide, advance, e, gone, Candidates(entities.items));
      removed', processed' := removed + gone, processed + [e];
      lists', gones', entries' := lists + [entities.items], gones + [gone], entries + [Candidates(entities.items)];
    }

    /** `update`: walks list positions 0, 1, 2, ... of the live list, which
        shrinks as entities are consumed. The trace says how: `lists[k]` is the
        list when position `k` is visited and `entries[k]` its entities'
        attributes then, `processed[k]` the entity updated there, which
        turns `entries[k]` into `entries[k + 1]` as `UpdateStep` says and
        removes `gones[k]`, the entities its collisions consume, never itself.
        The walk stops once it has passed the end of the list, so an entity
        that moves into an already visited position is not updated in that
        tick, no entity is updated twice, and with nothing consumed every
        entity is updated once, in list order. The whole tick is `Tick` on
        the attributes, and the total mass is kept. */
    method Update(timeScale: real, math: Math, collide: (Body, Body) -> bool, advance: (Body, real) -> Vec)
      returns (ghost removed: set<Entity>, ghost processed: seq<Entity>,
               ghost lists: seq<seq<Entity>>, ghost gones: seq<set<Entity>>,
               ghost entries: seq<seq<(Entity, Body)>>)
      requires Valid()
      modifies entities, entities.items
      ensures Valid()
      ensures entities.items == Without(old(entities.items), removed)
      ensures TotalMass(entities.items) == old(TotalMass(entities.items))
      ensures Distinct(processed) && forall x :: x in processed ==> x in old(entities.items)
      ensures |lists| == |processed| + 1 && |gones| == |processed|
      ensures lists[0] == old(entities.items) && lists[|processed|] == entities.items
      ensures forall k {:trigger lists[k]} :: 0 <= k < |processed| ==> k < |lists[k]| && lists[k][k] == processed[k]
      ensures forall k {:trigger gones[k]} :: 0 <= k < |processed| ==>
        processed[k] !in gones[k] && lists[k + 1] == Without(lists[k], gones[k])
      ensures |entities.items| <= |processed|
      ensures removed == {} ==> processed == old(entities.items)
      ensures Replayed(entries, processed, gones, timeScale, math, collide, advance)
      ensures entries[0] == old(Candidates(entities.items)) && entries[|processed|] == Candidates(entities.items)
      ensures Positive(old(Candidates(entities.items)))
      ensures Candidates(entities.items) == Tick(old(Candidates(entities.items)), 0, timeScale, math, collide, advance)
    {
      ghost var original := entities.items;
      removed := {};
      processed := [];
      lists := [original];
      gones := [];
      entries := [Candidates(original)];
      CandidatesPositive(original);
      WithoutNothing(original);
      TracedStart(original);
      var i := 0;
      while i < |entities.items|
        invariant original == old(entities.items)
        invariant Walking(i, original, removed, processed, lists, gones, entries, timeScale, math, collide, advance)
        invariant Without(original, {}) == original
        invariant TotalMass(entities.items) == old(TotalMass(entities.items))
        invariant entries[0] == old(Candidates(entities.items))
        decreases |entities.items| - i
      {
        assert entities.items[i] in original;
        removed, processed, lists, gones, entries :=
          WalkStep(i, timeScale, math, collide, advance, original, removed, processed, lists, gones, entries);
        i := i + 1;
      }
      ReplayedTick(entries, processed, gones, timeScale, math, collide, advance, i);
    }
  }
}
