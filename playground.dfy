/**
  The moving platforms of the playground example (examples/playground.rs,
  `move_trains`): a train spins at its fixed angular velocity and heads at
  its speed for the path corner its `target` names; once close to that
  corner it takes the corner's own `target` as its next one.
*/
module Playground {
  import opened Wrappers
  import opened VecMath

  /** `FuncTrain` together with the train's position and its linear and angular velocity. */
  datatype Train = Train(
    position: Vec3,
    linearVelocity: Vec3,
    angularVelocity: Vec3,
    target: string,
    speed: real,
    rotation: Vec3)

  /** `PathCorner` at its position. */
  datatype Corner = Corner(position: Vec3, targetname: string, target: string)

  /** `Vec3::distance_squared` */
  function DistanceSq(a: Vec3, b: Vec3): real
  {
    LengthSq(Sub(a, b))
  }

  /** The distance squared under which a train has reached its corner. */
  const Arrival: real := 0.1

  /** `corners.iter().find(..)`: the first corner, in query order, whose name is the target. */
  function FindCorner(corners: seq<Corner>, target: string): (r: Option<nat>)
    ensures r.Some? ==> r.value < |corners| && corners[r.value].targetname == target
                        && forall j :: 0 <= j < r.value ==> corners[j].targetname != target
    ensures r.None? ==> forall j :: 0 <= j < |corners| ==> corners[j].targetname != target
  {
    if corners == [] then None
    else if corners[0].targetname == target then Some(0)
    else
      var rest := FindCorner(corners[1..], target);
      if rest.Some? then Some(rest.value + 1) else None
  }

  /** One train after the system. */
  function MoveTrain(sqrt: real -> real, t: Train, corners: seq<Corner>): Train
  {
    var spun := t.(angularVelocity := t.rotation);
    if |t.target| == 0 then spun
    else
      match FindCorner(corners, t.target)
      case None => spun
      case Some(i) =>
        if DistanceSq(t.position, corners[i].position) < Arrival then spun.(target := corners[i].target)
        else spun.(linearVelocity := Scale(NormalizeOrZero(sqrt, Sub(corners[i].position, t.position)), t.speed))
  }

  /**
    What a train does in one step. It always spins at its rotation and never
    moves itself. Without a target, or when no corner carries the name, it
    keeps its velocity and target. At its corner it moves on to the corner's
    target and keeps its velocity. Otherwise it heads straight for the
    corner at exactly its speed.
  */
  lemma MoveTrainFacts(sqrt: real -> real, t: Train, corners: seq<Corner>)
    requires IsSqrt(sqrt)
    ensures var r := MoveTrain(sqrt, t, corners);
            r.angularVelocity == t.rotation && r.position == t.position
            && r.speed == t.speed && r.rotation == t.rotation
    ensures |t.target| == 0 || FindCorner(corners, t.target).None? ==>
              MoveTrain(sqrt, t, corners) == t.(angularVelocity := t.rotation)
    ensures |t.target| != 0 && FindCorner(corners, t.target).Some? ==>
              var c := corners[FindCorner(corners, t.target).value];
              var r := MoveTrain(sqrt, t, corners);
              (DistanceSq(t.position, c.position) < Arrival ==>
                 r.target == c.target && r.linearVelocity == t.linearVelocity)
              && (Arrival <= DistanceSq(t.position, c.position) ==>
                    r.target == t.target
                    && LengthSq(r.linearVelocity) == t.speed * t.speed
                    && Scale(r.linearVelocity, Length(sqrt, Sub(c.position, t.position)))
                       == Scale(Sub(c.position, t.position), t.speed))
  {
    if |t.target| != 0 && FindCorner(corners, t.target).Some? {
      var c := corners[FindCorner(corners, t.target).value];
      var d := Sub(c.position, t.position);
      if Arrival <= DistanceSq(t.position, c.position) {
        assert DistanceSq(t.position, c.position) == LengthSq(d);
        SquaresNonNegative(d);
        HeadingFor(sqrt, d, t.speed);
      }
    }
  }

  /** Scaling the direction to a point other than here by a speed gives a velocity of that speed towards it. */
  lemma HeadingFor(sqrt: real -> real, d: Vec3, speed: real)
    requires IsSqrt(sqrt) && d != Zero
    ensures LengthSq(Scale(NormalizeOrZero(sqrt, d), speed)) == speed * speed
    ensures Scale(Scale(NormalizeOrZero(sqrt, d), speed), Length(sqrt, d)) == Scale(d, speed)
  {
    var u := NormalizeOrZero(sqrt, d);
    var n := Length(sqrt, d);
    NormalizeFacts(sqrt, d);
    LengthSqScale(u, speed);
    assert Scale(Scale(u, speed), n) == Scale(Scale(u, n), speed);
  }

  /** `move_trains` */
  method MoveTrains(sqrt: real -> real, trains: array<Train>, corners: seq<Corner>)
    modifies trains
    ensures forall i :: 0 <= i < trains.Length ==> trains[i] == MoveTrain(sqrt, old(trains[i]), corners)
  {
    var k := 0;
    while k < trains.Length
      invariant 0 <= k <= trains.Length
      invariant forall i :: 0 <= i < k ==> trains[i] == MoveTrain(sqrt, old(trains[i]), corners)
      invariant forall i :: k <= i < trains.Length ==> trains[i] == old(trains[i])
    {
      trains[k] := trains[k].(angularVelocity := trains[k].rotation);
      var train := trains[k];
      if |train.target| != 0 {
        var found := FindCorner(corners, train.target);
        if found.Some? {
          var corner := corners[found.value];
          if DistanceSq(train.position, corner.position) < Arrival {
            trains[k] := train.(target := corner.target);
          } else {
            var toCorner := Sub(corner.position, train.position);
            trains[k] := train.(linearVelocity := Scale(NormalizeOrZero(sqrt, toCorner), train.speed));
          }
        }
      }
      k := k + 1;
    }
  }
}
