/** The scene registry (`Scene`): step functions registered by name, the name of the
    active one and a frame counter that `update` advances after calling its step. */
module Scenes {
  import opened Pools

  /** What one `update` does, read off the registry before the step runs: nothing
      (`!activeScene`, which also holds for the empty name), throw (no step is
      registered under the active name), or call `step` with `frame`. */
  datatype Pending<S> = Idle | Missing(name: string) | Run(step: S, frame: int)

  function PendingOf<S>(steps: map<string, S>, active: Option<string>, frame: int): (p: Pending<S>)
    ensures p.Idle? <==> active.None? || active.value == ""
    ensures p.Missing? <==> active.Some? && active.value != "" && active.value !in steps
    ensures p.Missing? ==> p.name == active.value
    ensures p.Run? ==> active.Some? && active.value in steps && p.step == steps[active.value] && p.frame == frame
  {
    match active
    case None => Idle
    case Some(name) =>
      if name == "" then Idle
      else if name !in steps then Missing(name)
      else Run(steps[name], frame)
  }

  /** The registry. The steps are values of `S`; whoever owns the registry runs them,
      since in the game a step reads and writes the game's objects and may itself call
      `activate`. `update` is therefore the lookup `Due()`, the step, then `Advance()`. */
  class Scene<S> {
    var steps: map<string, S>
    var activeScene: Option<string>
    var frame: int

    /** No step, no active scene, frame -1. */
    constructor ()
      ensures steps == map[] && activeScene == None && frame == -1
      ensures Due() == Idle
    {
      steps := map[];
      activeScene := None;
      frame := -1;
    }

    /** `add(name, func)`: a `Map.set`, so a second `add` under a name replaces the first. */
    method Add(name: string, step: S)
      modifies this
      ensures steps == old(steps)[name := step]
      ensures activeScene == old(activeScene) && frame == old(frame)
    {
      steps := steps[name := step];
    }

    /** `activate(name)`: the new name, frame 0, the registry untouched. */
    method Activate(name: string)
      modifies this
      ensures activeScene == Some(name) && frame == 0
      ensures steps == old(steps)
    {
      activeScene := Some(name);
      frame := 0;
    }

    /** The first half of `update`: what it will do with the current fields. */
    function Due(): Pending<S>
      reads this
    {
      PendingOf(steps, activeScene, frame)
    }

    /** The last line of `update`, run after the step returned. */
    method Advance()
      modifies this
      ensures frame == old(frame) + 1
      ensures steps == old(steps) && activeScene == old(activeScene)
    {
      frame := frame + 1;
    }
  }
}
