/**
  Input accumulation (src/input.rs). Input events arrive once per rendered
  frame, while the controller runs on a fixed step; `AccumulatedInput`
  gathers the events between fixed steps, is cleared after every frame in
  which a fixed step ran, and its jump buffer ages with the frame time. The
  pick-up actions are not accumulated but forwarded as messages to the
  pick-up system.
*/
module Input {
  import opened Wrappers
  import opened VecMath
  import Camera

  /**
    `AccumulatedInput`: the last movement since the last fixed step, the
    elapsed seconds of the jump buffer (None once the jump was processed),
    and whether any frame since the last fixed step asked to crouch.
  */
  datatype AccumulatedInput = AccumulatedInput(lastMovement: Option<Vec2>, jumped: Option<real>, crouched: bool)

  /** The input a frame can deliver to one accumulator, or the two systems that maintain it. */
  datatype Event = Move(value: Vec2) | Jump | Crouch | Tick(delta: real) | Clear

  /** One accumulator after one event. */
  function Apply(a: AccumulatedInput, e: Event): AccumulatedInput
  {
    match e
    case Move(v) => a.(lastMovement := Some(v))
    case Jump => a.(jumped := Some(0.0))
    case Crouch => a.(crouched := true)
    case Tick(delta) => if a.jumped.Some? then a.(jumped := Some(a.jumped.value + delta)) else a
    case Clear => AccumulatedInput(None, a.jumped, false)
  }

  /** One accumulator after a run of events, in order. */
  function Replay(a: AccumulatedInput, es: seq<Event>): AccumulatedInput
  {
    if es == [] then a else Apply(Replay(a, es[..|es| - 1]), es[|es| - 1])
  }

  /** The value of the latest movement event, if any. */
  function LatestMove(es: seq<Event>): Option<Vec2>
  {
    if es == [] then None
    else if es[|es| - 1].Move? then Some(es[|es| - 1].value)
    else LatestMove(es[..|es| - 1])
  }

  predicate NoClear(es: seq<Event>)
  {
    forall i :: 0 <= i < |es| ==> !es[i].Clear?
  }

  /**
    Between two clears the movement is the latest one input, or the previous
    one when none was.
  */
  lemma {:induction false} MovementIsLatest(a: AccumulatedInput, es: seq<Event>)
    requires NoClear(es)
    ensures Replay(a, es).lastMovement == if LatestMove(es).Some? then LatestMove(es) else a.lastMovement
  {
    if es != [] {
      MovementIsLatest(a, es[..|es| - 1]);
    }
  }

  /**
    Crouching latches: between two clears the accumulator asks to crouch
    exactly when it did before or some frame asked to.
  */
  lemma {:induction false} CrouchLatches(a: AccumulatedInput, es: seq<Event>)
    requires NoClear(es)
    ensures Replay(a, es).crouched <==> a.crouched || exists i :: 0 <= i < |es| && es[i].Crouch?
  {
    if es != [] {
      var init := es[..|es| - 1];
      CrouchLatches(a, init);
      if exists i :: 0 <= i < |init| && init[i].Crouch? {
        var i :| 0 <= i < |init| && init[i].Crouch?;
        assert es[i] == init[i];
      }
      if exists i :: 0 <= i < |es| && es[i].Crouch? {
        var i :| 0 <= i < |es| && es[i].Crouch?;
        if i < |init| { assert init[i] == es[i]; }
      }
    }
  }

  /**
    Only the controller consumes a buffered jump: whatever the events, the
    buffer is filled exactly when it was before or some frame input a jump.
  */
  lemma {:induction false} JumpBuffered(a: AccumulatedInput, es: seq<Event>)
    ensures Replay(a, es).jumped.Some? <==> a.jumped.Some? || exists i :: 0 <= i < |es| && es[i].Jump?
  {
    if es != [] {
      var init := es[..|es| - 1];
      JumpBuffered(a, init);
      if exists i :: 0 <= i < |init| && init[i].Jump? {
        var i :| 0 <= i < |init| && init[i].Jump?;
        assert es[i] == init[i];
      }
      if exists i :: 0 <= i < |es| && es[i].Jump? {
        var i :| 0 <= i < |es| && es[i].Jump?;
        if i < |init| { assert init[i] == es[i]; }
      }
    }
  }

  /** The frame time the timer ticks add up to. */
  function TickTotal(es: seq<Event>): real
  {
    if es == [] then 0.0
    else TickTotal(es[..|es| - 1]) + (if es[|es| - 1].Tick? then es[|es| - 1].delta else 0.0)
  }

  /**
    A jump input restarts the buffer at zero, and from then on it holds the
    time ticked since, clears included.
  */
  lemma {:induction false} JumpBufferAge(a: AccumulatedInput, before: seq<Event>, after: seq<Event>)
    requires forall i :: 0 <= i < |after| ==> !after[i].Jump?
    ensures Replay(a, before + [Jump] + after).jumped == Some(TickTotal(after))
  {
    if after == [] {
      assert before + [Jump] + after == before + [Jump];
      assert (before + [Jump])[..|before|] == before;
    } else {
      var init := after[..|after| - 1];
      JumpBufferAge(a, before, init);
      var es := before + [Jump] + after;
      assert es[..|es| - 1] == before + [Jump] + init;
      assert es[|es| - 1] == after[|after| - 1];
    }
  }

  /** `AvianPickupAction` */
  datatype PickupAction = Pull | Drop | Throw

  /** `AvianPickupInput` */
  datatype PickupInput = PickupInput(action: PickupAction, actor: Entity)

  /**
    The actor of a pick-up request: the camera of the controller the input
    was bound to, or the context entity itself when it has no camera.
  */
  function Actor(cameras: map<Entity, Camera.ControllerCamera>, context: Entity): Entity
  {
    if context in cameras then cameras[context].Get() else context
  }

  /**
    The accumulators of every entity that has one, the pick-up messages
    written so far, and the `CharacterControllerCamera` components.
  */
  class InputSystem {
    var accumulated: map<Entity, AccumulatedInput>
    var messages: seq<PickupInput>
    const cameras: map<Entity, Camera.ControllerCamera>

    constructor(accumulated: map<Entity, AccumulatedInput>, cameras: map<Entity, Camera.ControllerCamera>)
      ensures this.accumulated == accumulated && this.cameras == cameras && messages == []
    {
      this.accumulated := accumulated;
      this.cameras := cameras;
      messages := [];
    }

    /** The accumulators after one event reached the entity `context`; an entity without an accumulator is ignored. */
    function Delivered(context: Entity, e: Event): map<Entity, AccumulatedInput>
      reads this
    {
      if context in accumulated then accumulated[context := Apply(accumulated[context], e)] else accumulated
    }

    /** `apply_movement` */
    method ApplyMovement(context: Entity, value: Vec2)
      modifies this
      ensures accumulated == old(Delivered(context, Move(value))) && messages == old(messages)
    {
      if context in accumulated {
        accumulated := accumulated[context := accumulated[context].(lastMovement := Some(value))];
      }
    }

    /** `apply_jump`: the buffer restarts with a fresh stopwatch. */
    method ApplyJump(context: Entity)
      modifies this
      ensures accumulated == old(Delivered(context, Jump)) && messages == old(messages)
    {
      if context in accumulated {
        accumulated := accumulated[context := accumulated[context].(jumped := Some(0.0))];
      }
    }

    /** `apply_crouch` */
    method ApplyCrouch(context: Entity)
      modifies this
      ensures accumulated == old(Delivered(context, Crouch)) && messages == old(messages)
    {
      if context in accumulated {
        accumulated := accumulated[context := accumulated[context].(crouched := true)];
      }
    }

    /** `apply_pull`, `apply_drop` and `apply_throw`: each writes exactly one message and touches no accumulator. */
    method ApplyPickup(action: PickupAction, context: Entity)
      modifies this
      ensures messages == old(messages) + [PickupInput(action, Actor(cameras, context))]
      ensures context in cameras ==> messages[|messages| - 1].actor == cameras[context].camera
      ensures context !in cameras ==> messages[|messages| - 1].actor == context
      ensures accumulated == old(accumulated)
    {
      var actor := if context in cameras then cameras[context].Get() else context;
      messages := messages + [PickupInput(action, actor)];
    }

    /**
      `clear_accumulated_input`, run only after a frame in which the fixed
      step ran: every accumulator forgets its movement and crouch and keeps
      its jump buffer.
    */
    method ClearAccumulatedInput(fixedStepRan: bool)
      modifies this
      ensures accumulated.Keys == old(accumulated).Keys && messages == old(messages)
      ensures forall e :: e in accumulated ==>
                accumulated[e] == if fixedStepRan then Apply(old(accumulated)[e], Clear) else old(accumulated)[e]
    {
      if !fixedStepRan {
        return;
      }
      ghost var before := accumulated;
      var todo := accumulated.Keys;
      while todo != {}
        invariant accumulated.Keys == before.Keys && todo <= before.Keys
        invariant messages == old(messages)
        invariant forall e :: e in accumulated ==>
                    accumulated[e] == if e in todo then before[e] else Apply(before[e], Clear)
        decreases todo
      {
        var e :| e in todo;
        var input := accumulated[e];
        accumulated := accumulated[e := AccumulatedInput(None, input.jumped, false)];
        todo := todo - {e};
      }
    }

    /** `tick_timers`: every filled jump buffer ages by the frame time. */
    method TickTimers(delta: real)
      modifies this
      ensures accumulated.Keys == old(accumulated).Keys && messages == old(messages)
      ensures forall e :: e in accumulated ==> accumulated[e] == Apply(old(accumulated)[e], Tick(delta))
    {
      ghost var before := accumulated;
      var todo := accumulated.Keys;
      while todo != {}
        invariant accumulated.Keys == before.Keys && todo <= before.Keys
        invariant messages == old(messages)
        invariant forall e :: e in accumulated ==>
                    accumulated[e] == if e in todo then before[e] else Apply(before[e], Tick(delta))
        decreases todo
      {
        var e :| e in todo;
        var input := accumulated[e];
        if input.jumped.Some? {
          accumulated := accumulated[e := input.(jumped := Some(input.jumped.value + delta))];
        }
        todo := todo - {e};
      }
    }
  }
}
