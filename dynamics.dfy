/**
  Pushing dynamic bodies (src/dynamics.rs): after the controllers moved,
  every contact a controller reported pushes the dynamic rigid body it
  touched with an impulse along the contact normal, the character's mass
  times the relative velocity into the body.
*/
module Dynamics {
  import opened Wrappers
  import opened VecMath
  import opened KccTypes

  /** `RigidBody` */
  datatype BodyKind = Dynamic | Static | Kinematic

  /** A rigid body as the system sees it through `Forces`: its kind and current linear velocity. */
  datatype Body = Body(kind: BodyKind, linearVelocity: Vec3)

  /** A controller: its `ComputedMass` and the contacts of its `CharacterControllerOutput`. */
  datatype Kcc = Kcc(mass: real, touching: seq<Touch>)

  /**
    The physics engine's `apply_linear_impulse_at_point(impulse, point)`:
    the body after the impulse.
  */
  type ImpulseResponse = (Body, Vec3, Vec3) -> Body

  /** The impulse one contact gives: the relative velocity's part along the inward normal, times the mass. */
  function TouchImpulse(mass: real, touch: Touch, bodyVelocity: Vec3): Vec3
  {
    var direction := Neg(touch.normal);
    var relative := Sub(touch.characterVelocity, bodyVelocity);
    Scale(Scale(direction, Dot(direction, relative)), mass)
  }

  /**
    The impulse is parallel to the contact normal, vanishes when the character
    does not move into or away from the body, and for a unit normal and a
    non-negative mass pushes the body the way the character approaches it,
    in proportion to the approach speed.
  */
  lemma TouchImpulseFacts(mass: real, touch: Touch, bodyVelocity: Vec3)
    ensures var approach := Dot(Neg(touch.normal), Sub(touch.characterVelocity, bodyVelocity));
            TouchImpulse(mass, touch, bodyVelocity) == Scale(touch.normal, -(approach * mass))
    ensures Dot(Neg(touch.normal), Sub(touch.characterVelocity, bodyVelocity)) == 0.0 ==>
              TouchImpulse(mass, touch, bodyVelocity) == Zero
    ensures LengthSq(touch.normal) == 1.0 ==>
              Dot(TouchImpulse(mass, touch, bodyVelocity), Neg(touch.normal))
              == mass * Dot(Neg(touch.normal), Sub(touch.characterVelocity, bodyVelocity))
  {
    var n := touch.normal;
    var approach := Dot(Neg(n), Sub(touch.characterVelocity, bodyVelocity));
    var k := approach * mass;
    assert TouchImpulse(mass, touch, bodyVelocity)
        == Vec3(mass * (approach * -n.x), mass * (approach * -n.y), mass * (approach * -n.z));
    assert mass * (approach * -n.x) == -k * n.x;
    assert mass * (approach * -n.y) == -k * n.y;
    assert mass * (approach * -n.z) == -k * n.z;
    if LengthSq(n) == 1.0 {
      assert Dot(Scale(n, -k), Neg(n)) == k * LengthSq(n);
    }
  }

  /** The body a contact pushes, if the touched collider has a `ColliderOf` and that body can be found. */
  function PushedBody(touch: Touch, colliderOf: map<Entity, Entity>, bodies: map<Entity, Body>): Option<Entity>
  {
    if touch.entity in colliderOf && colliderOf[touch.entity] in bodies then Some(colliderOf[touch.entity])
    else None
  }

  /** The bodies after one contact: only the dynamic body it touched changes. */
  function ApplyTouch(bodies: map<Entity, Body>, colliderOf: map<Entity, Entity>, respond: ImpulseResponse,
                      mass: real, touch: Touch): (r: map<Entity, Body>)
    ensures r.Keys == bodies.Keys
    ensures forall b :: b in bodies && PushedBody(touch, colliderOf, bodies) != Some(b) ==> r[b] == bodies[b]
    ensures forall b :: b in bodies && !bodies[b].kind.Dynamic? ==> r[b] == bodies[b]
  {
    var pushed := PushedBody(touch, colliderOf, bodies);
    if pushed.None? || !bodies[pushed.value].kind.Dynamic? then bodies
    else
      var body := bodies[pushed.value];
      bodies[pushed.value := respond(body, TouchImpulse(mass, touch, body.linearVelocity), touch.point)]
  }

  /** The bodies after the contacts of one controller, in order. */
  function ApplyTouches(bodies: map<Entity, Body>, colliderOf: map<Entity, Entity>, respond: ImpulseResponse,
                        mass: real, touches: seq<Touch>): map<Entity, Body>
  {
    if touches == [] then bodies
    else
      ApplyTouch(ApplyTouches(bodies, colliderOf, respond, mass, touches[..|touches| - 1]),
                 colliderOf, respond, mass, touches[|touches| - 1])
  }

  /** The bodies after every contact of every controller, controller by controller. */
  function ApplyKccs(bodies: map<Entity, Body>, colliderOf: map<Entity, Entity>, respond: ImpulseResponse,
                     kccs: seq<Kcc>): map<Entity, Body>
  {
    if kccs == [] then bodies
    else
      var last := kccs[|kccs| - 1];
      ApplyTouches(ApplyKccs(bodies, colliderOf, respond, kccs[..|kccs| - 1]), colliderOf, respond,
                   last.mass, last.touching)
  }

  /** Whether a body is the body of a collider some contact in `touches` touched. */
  predicate TouchedBy(b: Entity, colliderOf: map<Entity, Entity>, touches: seq<Touch>)
  {
    exists j :: 0 <= j < |touches| && touches[j].entity in colliderOf && colliderOf[touches[j].entity] == b
  }

  /** A controller's contacts change only the dynamic bodies it touched; no body appears or disappears. */
  lemma {:induction false} ApplyTouchesFrame(bodies: map<Entity, Body>, colliderOf: map<Entity, Entity>,
                                             respond: ImpulseResponse, mass: real, touches: seq<Touch>)
    ensures ApplyTouches(bodies, colliderOf, respond, mass, touches).Keys == bodies.Keys
    ensures forall b :: b in bodies && (!TouchedBy(b, colliderOf, touches) || !bodies[b].kind.Dynamic?) ==>
              ApplyTouches(bodies, colliderOf, respond, mass, touches)[b] == bodies[b]
  {
    if touches != [] {
      var init := touches[..|touches| - 1];
      var last := touches[|touches| - 1];
      ApplyTouchesFrame(bodies, colliderOf, respond, mass, init);
      var mid := ApplyTouches(bodies, colliderOf, respond, mass, init);
      forall b | b in bodies && (!TouchedBy(b, colliderOf, touches) || !bodies[b].kind.Dynamic?)
        ensures ApplyTouches(bodies, colliderOf, respond, mass, touches)[b] == bodies[b]
      {
        if !TouchedBy(b, colliderOf, touches) {
          assert forall j :: 0 <= j < |init| ==> init[j] == touches[j];
          assert last == touches[|touches| - 1];
        }
      }
    }
  }

  /** The bodies and the relation from colliders to the bodies they belong to. */
  class PhysicsWorld {
    var bodies: map<Entity, Body>
    const colliderOf: map<Entity, Entity>
    const respond: ImpulseResponse

    constructor(bodies: map<Entity, Body>, colliderOf: map<Entity, Entity>, respond: ImpulseResponse)
      ensures this.bodies == bodies && this.colliderOf == colliderOf && this.respond == respond
    {
      this.bodies := bodies;
      this.colliderOf := colliderOf;
      this.respond := respond;
    }

    /**
      `apply_forces`: every contact of every controller is visited in order;
      a contact whose collider has no body, whose body is missing or whose
      body is not dynamic is skipped, and each impulse sees the velocity the
      earlier ones left.
    */
    method ApplyForces(kccs: seq<Kcc>)
      modifies this
      ensures bodies == ApplyKccs(old(bodies), colliderOf, respond, kccs)
    {
      ghost var start := bodies;
      var i := 0;
      while i < |kccs|
        invariant 0 <= i <= |kccs|
        invariant bodies == ApplyKccs(start, colliderOf, respond, kccs[..i])
      {
        var mass := kccs[i].mass;
        var touches := kccs[i].touching;
        ghost var before := bodies;
        var j := 0;
        while j < |touches|
          invariant 0 <= j <= |touches|
          invariant bodies == ApplyTouches(before, colliderOf, respond, mass, touches[..j])
        {
          assert touches[..j + 1][..j] == touches[..j];
          var touch := touches[j];
          if touch.entity in colliderOf {
            var body := colliderOf[touch.entity];
            if body in bodies && bodies[body].kind.Dynamic? {
              var direction := Neg(touch.normal);
              var relative := Sub(touch.characterVelocity, bodies[body].linearVelocity);
              var touchVelocity := Scale(direction, Dot(direction, relative));
              var impulse := Scale(touchVelocity, mass);
              bodies := bodies[body := respond(bodies[body], impulse, touch.point)];
            }
          }
          j := j + 1;
        }
        assert touches[..j] == touches;
        assert kccs[..i + 1][..i] == kccs[..i];
        i := i + 1;
      }
      assert kccs[..i] == kccs;
    }
  }
}
