/** The stateful video decoder of the simulator: it stands at some frame of one video, and a request
  * for a later frame is charged for all frames up to it. Requests wait for the one unit in order;
  * the charge is worked out when a request arrives, the decoder moves on when it is served.
  */
module VideoDecoder {
  import opened Options

  type Path = string

  datatype Job = Job(frame: int, frames: int)

  /** `queue` holds the unit, first, and waits for it. Histories: `last` is the last frame asked for
    * of this video, `charged` the frames charged for it, `busy` the time that takes. */
  datatype State = State(path: Option<Path>, current: int, queue: seq<Job>, last: int, charged: int, busy: real)

  function Init(): State { State(None, 0, [], 0, 0, 0.0) }

  datatype Step = Request(path: Path, frame: int) | Serve

  predicate Enabled(s: State, step: Step) { step.Serve? ==> s.queue != [] }

  /** Another path starts a new video at its first frame. */
  function Opened(s: State, path: Path): State {
    if s.path == Some(path) then s else s.(path := Some(path), current := 0, last := 0, charged := 0, busy := 0.0)
  }

  /** A frame before the current one fails an assertion. */
  predicate Fails(s: State, path: Path, frame: int) { frame < Opened(s, path).current }

  function Do(fps: real, s: State, step: Step): State
    requires fps > 0.0 && Enabled(s, step)
  {
    match step
    case Request(path, frame) =>
      var t := Opened(s, path);
      if Fails(s, path, frame) then t
      else
        var frames := frame - t.current;
        t.(queue := t.queue + [Job(frame, frames)], last := frame, charged := t.charged + frames,
           busy := t.busy + Elapsed(fps, frames))
    case Serve => s.(queue := s.queue[1..], current := s.queue[0].frame)
  }

  function Elapsed(fps: real, frames: int): real
    requires fps > 0.0
  {
    1.0 / fps * frames as real
  }

  /** At the frame rate, the time is that of so many frames. */
  lemma ElapsedIsFrames(fps: real, frames: int)
    requires fps > 0.0
    ensures Elapsed(fps, frames) * fps == frames as real
  {
    assert 1.0 / fps * fps == 1.0;
    assert Elapsed(fps, frames) * fps == 1.0 / fps * fps * frames as real;
  }

  /** What the source assumes of its clients: one video at a time, frames in increasing order. */
  predicate Assumed(s: State, step: Step) {
    step.Request? ==>
      if s.path == Some(step.path) then s.last <= step.frame else s.queue == [] && 0 <= step.frame
  }

  ghost predicate Inv(fps: real, s: State)
    requires fps > 0.0
  {
    && 0 <= s.current
    && (forall i :: 0 <= i < |s.queue| ==> s.current <= s.queue[i].frame)
    && (forall i, j :: 0 <= i < j < |s.queue| ==> s.queue[i].frame <= s.queue[j].frame)
    && s.last == (if s.queue == [] then s.current else s.queue[|s.queue| - 1].frame)
    && s.last <= s.charged && s.busy == Elapsed(fps, s.charged)
  }

  /** Under the assumption no request fails. */
  lemma StepKeepsInv(fps: real, s: State, step: Step)
    requires fps > 0.0 && Inv(fps, s) && Enabled(s, step) && Assumed(s, step)
    ensures Inv(fps, Do(fps, s, step))
    ensures step.Request? ==> !Fails(s, step.path, step.frame)
  {
    if step.Request? {
      var t := Opened(s, step.path);
      ElapsedAdds(fps, t.charged, step.frame - t.current);
    }
  }

  lemma ElapsedAdds(fps: real, a: int, b: int)
    requires fps > 0.0
    ensures Elapsed(fps, a) + Elapsed(fps, b) == Elapsed(fps, a + b)
  {
    var unit := 1.0 / fps;
    assert unit * a as real + unit * b as real == unit * (a as real + b as real);
  }

  /** Without the assumption: a request that opens a new video while the old one has a job waiting
    * leaves the decoder, once that job is served, at a frame of the old video, and requests for
    * the frames of the new one before it fail. */
  lemma SwitchInFlightFails(fps: real, s: State, path: Path, frame: int, next: int)
    requires fps > 0.0 && Inv(fps, s) && s.queue != [] && s.path != Some(path)
    requires 0 <= frame <= next
    ensures var t := Do(fps, Do(fps, s, Request(path, frame)), Serve);
      t.last <= next && t.path == Some(path) && (Fails(t, path, next) <==> next < s.queue[0].frame)
  {
  }

  // ----- What a video costs -----

  function Run(fps: real, s: State, steps: seq<Step>): Option<State>
    requires fps > 0.0
    decreases |steps|
  {
    if steps == [] then Some(s)
    else if Enabled(s, steps[0]) then Run(fps, Do(fps, s, steps[0]), steps[1..])
    else None
  }

  /** All requests are for frames of the video that is open, as assumed. */
  predicate SameVideo(fps: real, s: State, steps: seq<Step>)
    requires fps > 0.0
    decreases |steps|
  {
    steps != [] && Enabled(s, steps[0]) ==>
      && Assumed(s, steps[0]) && (steps[0].Request? ==> s.path == Some(steps[0].path))
      && SameVideo(fps, Do(fps, s, steps[0]), steps[1..])
  }

  /** No request comes while one for a later frame than the current one is unserved. */
  predicate CaughtUp(fps: real, s: State, steps: seq<Step>)
    requires fps > 0.0
    decreases |steps|
  {
    steps != [] && Enabled(s, steps[0]) ==>
      (steps[0].Request? ==> s.current == s.last) && CaughtUp(fps, Do(fps, s, steps[0]), steps[1..])
  }

  /** The frames charged beyond those of the video never become fewer, and stay the same if and only
    * if every request comes when the decoder has caught up. */
  lemma {:induction false} OverchargeIff(fps: real, s: State, steps: seq<Step>)
    requires fps > 0.0 && Inv(fps, s) && Run(fps, s, steps).Some? && SameVideo(fps, s, steps)
    ensures var t := Run(fps, s, steps).value;
      && Inv(fps, t)
      && t.charged - t.last >= s.charged - s.last
      && (t.charged - t.last == s.charged - s.last <==> CaughtUp(fps, s, steps))
    decreases |steps|
  {
    if steps != [] {
      StepKeepsInv(fps, s, steps[0]);
      OverchargeIff(fps, Do(fps, s, steps[0]), steps[1..]);
    }
  }

  /** A video asked for in any stride takes exactly the time of decoding every frame up to the last
    * one asked for, if and only if each request waits for the one before. */
  lemma VideoTimeIff(fps: real, s: State, path: Path, frame: int, steps: seq<Step>)
    requires fps > 0.0 && Inv(fps, s) && s.queue == [] && s.path != Some(path) && 0 <= frame
    requires var started := Do(fps, s, Request(path, frame)); Run(fps, started, steps).Some? && SameVideo(fps, started, steps)
    ensures var started := Do(fps, s, Request(path, frame));
      var t := Run(fps, started, steps).value;
      t.busy == Elapsed(fps, t.last) <==> CaughtUp(fps, started, steps)
  {
    var started := Do(fps, s, Request(path, frame));
    StepKeepsInv(fps, s, Request(path, frame));
    OverchargeIff(fps, started, steps);
    var t := Run(fps, started, steps).value;
    ElapsedInjective(fps, t.charged, t.last);
  }

  lemma ElapsedInjective(fps: real, a: int, b: int)
    requires fps > 0.0
    ensures Elapsed(fps, a) == Elapsed(fps, b) <==> a == b
  {
    var unit := 1.0 / fps;
    assert unit > 0.0;
    assert unit * a as real - unit * b as real == unit * (a - b) as real;
    if a != b {
      assert unit * (a - b) as real != 0.0;
    }
  }

  /** The decoder as a class. */
  class VideoDecoderSim {
    const targetFps: real
    var currentPath: Option<Path>
    var currentFrameId: int
    var queue: seq<Job>

    /** This object holds all of the state but the histories. */
    ghost predicate Shows(s: State)
      reads this
    {
      targetFps > 0.0 && s.path == currentPath && s.current == currentFrameId && s.queue == queue
    }

    constructor (targetFps: real)
      requires targetFps > 0.0
      ensures Shows(Init()) && this.targetFps == targetFps
    {
      this.targetFps := targetFps;
      currentPath, currentFrameId, queue := None, 0, [];
    }

    /** A request arrives: its time on the unit, or None if the assertion fails. */
    method DecodeFrame(path: Path, frameId: int, ghost s: State) returns (elapsed: Option<real>)
      requires Shows(s)
      modifies this
      ensures Shows(Do(targetFps, s, Request(path, frameId)))
      ensures currentPath == Some(path)
      ensures currentFrameId == if old(currentPath) == Some(path) then old(currentFrameId) else 0
      ensures elapsed.None? <==> frameId < currentFrameId
      ensures elapsed.None? ==> queue == old(queue)
      ensures elapsed.Some? ==>
        && queue == old(queue) + [Job(frameId, frameId - currentFrameId)]
        && elapsed.value * targetFps == (frameId - currentFrameId) as real
      ensures elapsed.None? <==> Fails(s, path, frameId)
      ensures elapsed.Some? ==> Do(targetFps, s, Request(path, frameId)).busy == Opened(s, path).busy + elapsed.value
    {
      if currentPath != Some(path) {
        currentPath := Some(path);
        currentFrameId := 0;
      }
      if frameId < currentFrameId {
        return None;
      }
      queue := queue + [Job(frameId, frameId - currentFrameId)];
      ElapsedIsFrames(targetFps, frameId - currentFrameId);
      return Some(1.0 / targetFps * (frameId - currentFrameId) as real);
    }

    /** The timeout of the request that holds the unit: fast-forward, and release. */
    method FastForward(ghost s: State)
      requires Shows(s) && queue != []
      modifies this
      ensures currentFrameId == old(queue)[0].frame && queue == old(queue)[1..] && currentPath == old(currentPath)
      ensures Shows(Do(targetFps, s, Serve))
    {
      currentFrameId := queue[0].frame;
      queue := queue[1..];
    }
  }
}
