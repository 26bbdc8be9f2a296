/**
  Water immersion (src/water.rs): once per fixed step every object that
  carries a `WaterState` recomputes how deep it is in water and the slowest
  water speed among the water volumes it overlaps.
*/
module Water {
  import Wrappers
  import opened VecMath

  /** `WaterLevel`, ordered as declared: None < Touching < Center. */
  datatype Level = None | Touching | Center {
    function Rank(): nat
    {
      match this
      case None => 0
      case Touching => 1
      case Center => 2
    }
  }

  /** `Ord::max` on the derived order of `WaterLevel`. */
  function MaxLevel(a: Level, b: Level): (r: Level)
    ensures r == a || r == b
    ensures a.Rank() <= r.Rank() && b.Rank() <= r.Rank()
  {
    if a.Rank() >= b.Rank() then a else b
  }

  datatype WaterState = WaterState(level: Level, speed: real)

  /** `f32::MAX`, the speed of an object that overlaps no water. */
  const F32Max: real := 340282346638528859811704183484516925440.0

  /**
    A water volume: its `Water::speed` and the collider's `contains_point`
    query at the volume's position and rotation.
  */
  datatype Volume = Volume(speed: real, contains: Vec3 -> bool)

  /** The level a single volume gives an object whose origin is `waist`. */
  function LevelIn(v: Volume, waist: Vec3): Level
  {
    if v.contains(waist) then Center else Touching
  }

  /**
    `waters.iter_many(colliding_entities)`: the colliding entities that are
    water volumes, in the order the colliding entities are listed.
  */
  function VolumesAmong(colliding: seq<Wrappers.Entity>, waters: map<Wrappers.Entity, Volume>): (r: seq<Volume>)
    ensures |r| <= |colliding|
    ensures forall v :: v in r ==> exists i :: 0 <= i < |colliding| && colliding[i] in waters && waters[colliding[i]] == v
    ensures forall i :: 0 <= i < |colliding| && colliding[i] in waters ==> waters[colliding[i]] in r
  {
    if colliding == [] then []
    else
      var rest := VolumesAmong(colliding[..|colliding| - 1], waters);
      var last := colliding[|colliding| - 1];
      if last in waters then rest + [waters[last]] else rest
  }

  /** The state after folding the volumes in order, starting from "no water, `f32::MAX`". */
  function Immersion(volumes: seq<Volume>, waist: Vec3): WaterState
  {
    if volumes == [] then WaterState(None, F32Max)
    else
      var before := Immersion(volumes[..|volumes| - 1], waist);
      var v := volumes[|volumes| - 1];
      WaterState(MaxLevel(LevelIn(v, waist), before.level), Min(before.speed, v.speed))
  }

  /**
    The level is the deepest level any volume gives (None without volumes), it
    is at least Touching exactly when some volume overlaps, and Center exactly
    when some volume contains the origin.
  */
  lemma {:induction false} ImmersionLevel(volumes: seq<Volume>, waist: Vec3)
    ensures forall i :: 0 <= i < |volumes| ==> LevelIn(volumes[i], waist).Rank() <= Immersion(volumes, waist).level.Rank()
    ensures volumes == [] <==> Immersion(volumes, waist).level == None
    ensures volumes != [] ==> exists i :: 0 <= i < |volumes| && Immersion(volumes, waist).level == LevelIn(volumes[i], waist)
    ensures Immersion(volumes, waist).level == Center <==> exists i :: 0 <= i < |volumes| && volumes[i].contains(waist)
  {
    if volumes != [] {
      var init := volumes[..|volumes| - 1];
      var v := volumes[|volumes| - 1];
      ImmersionLevel(init, waist);
      var before := Immersion(init, waist);
      var r := Immersion(volumes, waist);
      assert r.level == MaxLevel(LevelIn(v, waist), before.level);
      forall i | 0 <= i < |volumes|
        ensures LevelIn(volumes[i], waist).Rank() <= r.level.Rank()
      {
        if i < |init| { assert volumes[i] == init[i]; }
      }
      if r.level == LevelIn(v, waist) {
        assert r.level == LevelIn(volumes[|volumes| - 1], waist);
      } else {
        var i :| 0 <= i < |init| && before.level == LevelIn(init[i], waist);
        assert volumes[i] == init[i];
      }
      if exists i :: 0 <= i < |volumes| && volumes[i].contains(waist) {
        var i :| 0 <= i < |volumes| && volumes[i].contains(waist);
        assert LevelIn(volumes[i], waist) == Center;
      }
      if r.level == Center {
        if v.contains(waist) {
          assert volumes[|volumes| - 1].contains(waist);
        } else {
          assert before.level == Center;
          var i :| 0 <= i < |init| && init[i].contains(waist);
          assert volumes[i] == init[i];
        }
      }
    }
  }

  /**
    The speed is the least speed of the volumes and of `f32::MAX`, and it is
    one of them.
  */
  lemma {:induction false} ImmersionSpeed(volumes: seq<Volume>, waist: Vec3)
    ensures Immersion(volumes, waist).speed <= F32Max
    ensures forall i :: 0 <= i < |volumes| ==> Immersion(volumes, waist).speed <= volumes[i].speed
    ensures Immersion(volumes, waist).speed == F32Max
            || exists i :: 0 <= i < |volumes| && Immersion(volumes, waist).speed == volumes[i].speed
  {
    if volumes != [] {
      var init := volumes[..|volumes| - 1];
      ImmersionSpeed(init, waist);
      var r := Immersion(volumes, waist);
      forall i | 0 <= i < |volumes|
        ensures r.speed <= volumes[i].speed
      {
        if i < |init| { assert volumes[i] == init[i]; }
      }
      if r.speed != F32Max && r.speed != volumes[|volumes| - 1].speed {
        var i :| 0 <= i < |init| && Immersion(init, waist).speed == init[i].speed;
        assert volumes[i] == init[i];
      }
    }
  }

  /** An object is in water at all exactly when one of the entities it collides with is a water volume. */
  lemma OverlapsWater(colliding: seq<Wrappers.Entity>, waters: map<Wrappers.Entity, Volume>, waist: Vec3)
    ensures Immersion(VolumesAmong(colliding, waters), waist).level != None
            <==> exists i :: 0 <= i < |colliding| && colliding[i] in waters
  {
    var volumes := VolumesAmong(colliding, waters);
    ImmersionLevel(volumes, waist);
    if volumes != [] {
      assert volumes[0] in volumes;
    }
    if exists i :: 0 <= i < |colliding| && colliding[i] in waters {
      var i :| 0 <= i < |colliding| && colliding[i] in waters;
      assert waters[colliding[i]] in volumes;
    }
  }

  /** One object the system visits: its position and the entities it collides with. */
  datatype Object = Object(position: Vec3, colliding: seq<Wrappers.Entity>)

  /**
    The inner loop of `update_water` for one object: starting from no water
    and `f32::MAX`, each colliding water volume raises the level and lowers
    the speed.
  */
  method ObjectImmersion(waist: Vec3, colliding: seq<Wrappers.Entity>, waters: map<Wrappers.Entity, Volume>)
    returns (state: WaterState)
    ensures state == Immersion(VolumesAmong(colliding, waters), waist)
  {
    state := WaterState(None, F32Max);
    var n := 0;
    while n < |colliding|
      invariant 0 <= n <= |colliding|
      invariant state == Immersion(VolumesAmong(colliding[..n], waters), waist)
    {
      assert colliding[..n + 1][..n] == colliding[..n];
      if colliding[n] in waters {
        var water := waters[colliding[n]];
        var level := if water.contains(waist) then Center else Touching;
        state := state.(level := MaxLevel(level, state.level));
        state := state.(speed := Min(state.speed, water.speed));
        assert VolumesAmong(colliding[..n + 1], waters) == VolumesAmong(colliding[..n], waters) + [water];
      }
      n := n + 1;
    }
    assert colliding[..n] == colliding;
  }

  /**
    `update_water`: every object's state is rebuilt from scratch out of the
    water volumes among the entities it collides with; the previous state
    plays no part.
  */
  method UpdateWater(states: array<WaterState>, objects: seq<Object>, waters: map<Wrappers.Entity, Volume>)
    requires states.Length == |objects|
    modifies states
    ensures forall k :: 0 <= k < states.Length ==>
              states[k] == Immersion(VolumesAmong(objects[k].colliding, waters), objects[k].position)
  {
    var k := 0;
    while k < states.Length
      invariant 0 <= k <= states.Length
      invariant forall j :: 0 <= j < k ==>
                  states[j] == Immersion(VolumesAmong(objects[j].colliding, waters), objects[j].position)
    {
      states[k] := ObjectImmersion(objects[k].position, objects[k].colliding, waters);
      k := k + 1;
    }
  }
}
