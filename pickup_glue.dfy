/**
  The glue between the pick-up system and the controller
  (src/pickup_glue.rs): while the camera of a controller holds a prop, the
  prop's colliders are excluded from the controller's queries, so that the
  character does not collide with what it carries.
*/
module PickupGlue {
  import opened Wrappers

  /** A prop's colliders, `RigidBodyColliders`, in their listed order. */
  type Colliders = seq<Entity>

  /** `excluded_entities.extend(colliders)` */
  function Excluding(excluded: set<Entity>, colliders: Colliders): (r: set<Entity>)
    ensures forall e :: e in r <==> e in excluded || e in colliders
  {
    excluded + set e | e in colliders
  }

  /** The set after `excluded_entities.remove` of every collider. */
  function Readmitting(excluded: set<Entity>, colliders: Colliders): (r: set<Entity>)
    ensures forall e :: e in r <==> e in excluded && e !in colliders
  {
    excluded - set e | e in colliders
  }

  /**
    Picking a prop up and putting it down again leaves the exclusions as they
    were, less the prop's colliders; exactly as they were when none of them
    had been excluded before.
  */
  lemma PickupThenRelease(excluded: set<Entity>, colliders: Colliders)
    ensures Readmitting(Excluding(excluded, colliders), colliders) == excluded - set e | e in colliders
    ensures (forall i :: 0 <= i < |colliders| ==> colliders[i] !in excluded) ==>
              Readmitting(Excluding(excluded, colliders), colliders) == excluded
  {
  }

  /**
    A pick-up actor the observers can see: the entity it `Holding`s and the
    controller it is the camera of (`CharacterControllerCameraOf`). Only
    actors whose pick-up state changed this frame are visible.
  */
  datatype Actor = Actor(holding: Entity, cameraOf: Entity)

  class Glue {
    const actors: map<Entity, Actor>
    const props: map<Entity, Colliders>
    /** The excluded entities of every `CharacterController`'s query filter. */
    var filters: map<Entity, set<Entity>>

    constructor(actors: map<Entity, Actor>, props: map<Entity, Colliders>, filters: map<Entity, set<Entity>>)
      ensures this.actors == actors && this.props == props && this.filters == filters
    {
      this.actors := actors;
      this.props := props;
      this.filters := filters;
    }

    /** Whether the actor, its controller and the held prop can all be found. */
    predicate Resolves(actor: Entity)
      reads this
    {
      actor in actors && actors[actor].cameraOf in filters && actors[actor].holding in props
    }

    /** `filter_out_picked_up_prop`: the held prop's colliders join the controller's exclusions. */
    method FilterOutPickedUpProp(actor: Entity)
      modifies this
      ensures !old(Resolves(actor)) ==> filters == old(filters)
      ensures old(Resolves(actor)) ==>
                var kcc := actors[actor].cameraOf;
                filters == old(filters)[kcc := Excluding(old(filters)[kcc], props[actors[actor].holding])]
    {
      if actor !in actors {
        return;
      }
      var a := actors[actor];
      if a.cameraOf !in filters {
        return;
      }
      if a.holding !in props {
        return;
      }
      var colliders := props[a.holding];
      filters := filters[a.cameraOf := filters[a.cameraOf] + set e | e in colliders];
    }

    /** `filter_in_unpicked_prop`: the released prop's colliders are removed one by one from the controller's exclusions. */
    method FilterInUnpickedProp(actor: Entity)
      modifies this
      ensures !old(Resolves(actor)) ==> filters == old(filters)
      ensures old(Resolves(actor)) ==>
                var kcc := actors[actor].cameraOf;
                filters == old(filters)[kcc := Readmitting(old(filters)[kcc], props[actors[actor].holding])]
    {
      if actor !in actors {
        return;
      }
      var a := actors[actor];
      if a.cameraOf !in filters {
        return;
      }
      if a.holding !in props {
        return;
      }
      var colliders := props[a.holding];
      var excluded := filters[a.cameraOf];
      var i := 0;
      while i < |colliders|
        invariant 0 <= i <= |colliders|
        invariant excluded == filters[a.cameraOf] - set e | e in colliders[..i]
      {
        assert colliders[..i + 1] == colliders[..i] + [colliders[i]];
        excluded := excluded - {colliders[i]};
        i := i + 1;
      }
      assert colliders[..i] == colliders;
      filters := filters[a.cameraOf := excluded];
    }
  }
}
