/** The motion-triggered recording state machine of the frame loop, as pure
    functions on a state record. One call of Step is one iteration of the
    loop: the motion counter update, the start / write / stop decision, the
    periodic re-baseline and the frame counter. The camera, the classifier,
    the video writer and the uploader are outside the model; what the loop
    asks of them is returned as a sequence of events. */
module Recorder {

  datatype Option<T> = None | Some(value: T)

  /** Timestamps are integer milliseconds; configured durations are whole seconds. */
  const MillisPerSecond: int := 1000

  /** The clip file `motion_<local time to the second>.mp4` in directory `dir`.
      The formatting of the time stamp is abstract: the path is determined
      by the directory and the second, and by nothing else. */
  datatype ClipPath = ClipPath(dir: string, second: int)

  /** The name a clip started at `now` gets: the second `now` falls in. */
  function ClipPathAt(dir: string, now: int): (p: ClipPath)
    ensures p.dir == dir
    ensures p.second * MillisPerSecond <= now < (p.second + 1) * MillisPerSecond
  {
    ClipPath(dir, now / MillisPerSecond)
  }

  /** The constants the loop reads, and whether an uploader was set up. */
  datatype Config = Config(
    cooldownTime: int,         // seconds without motion before a reset or a stop
    motionPersistence: int,    // motion frames needed to record
    updateFrameInterval: int,  // frames between two re-baselines of the classifier
    localWriteDir: string,     // where clips are written
    uploadEnabled: bool)       // whether a finished clip is handed to the uploader

  /** The configuration when no environment variable overrides a default. */
  function DefaultConfig(localWriteDir: string, uploadEnabled: bool): (cfg: Config)
    ensures cfg.cooldownTime == 3 && cfg.motionPersistence == 5 && cfg.updateFrameInterval == 100
    ensures cfg.localWriteDir == localWriteDir && cfg.uploadEnabled == uploadEnabled
  {
    Config(3, 5, 100, localWriteDir, uploadEnabled)
  }

  /** The variables the loop updates. `videoFilename` is None until the first
      clip is started and afterwards names the most recent one: stopping a
      recording does not clear it. */
  datatype State = State(
    motionFrameCount: nat,
    lastMotionTime: int,
    recording: bool,
    videoFilename: Option<ClipPath>,
    frameCounter: nat)

  /** A recording always has a clip name: both are set together. */
  predicate Consistent(s: State)
  {
    s.recording ==> s.videoFilename.Some?
  }

  /** The state before the first frame. */
  function Initial(): (s: State)
    ensures Consistent(s) && !s.recording && s.videoFilename == None
    ensures s.motionFrameCount == 0 && s.lastMotionTime == 0 && s.frameCounter == 0
  {
    State(0, 0, false, None, 0)
  }

  /** What the loop asks of the collaborators: open a clip, write the frame
      into it, release it, hand a finished clip to the uploader, reset the
      background model. */
  datatype Event = Open(path: ClipPath) | Write | Release | Upload(path: ClipPath) | Rebaseline

  /** The outcome of the start / write / stop decision. Start also writes the frame. */
  datatype Action = ContinueIdle | Start(path: ClipPath) | WriteFrame | Stop(path: ClipPath)

  /** One frame as the loop sees it: whether motion was found in it, and the
      clock. The source reads the clock up to three times per frame; the
      model reads it once. */
  datatype Reading = Reading(motion: bool, now: int)

  datatype Decision = Decision(next: State, action: Action, events: seq<Event>)

  datatype TickResult = TickResult(next: State, action: Action, rebaselined: bool, crashed: bool, events: seq<Event>)

  /** More than the cooldown has passed since the last motion (a strict comparison). */
  predicate CooldownElapsed(cfg: Config, lastMotionTime: int, now: int)
  {
    now - lastMotionTime > cfg.cooldownTime * MillisPerSecond
  }

  /** The motion counter update: count a motion frame, or reset the count
      once the cooldown has elapsed, or else keep it (the grace period). */
  function CountMotion(cfg: Config, s: State, input: Reading): (c: State)
    ensures c.recording == s.recording && c.videoFilename == s.videoFilename
    ensures c.frameCounter == s.frameCounter
  {
    if input.motion then
      s.(motionFrameCount := s.motionFrameCount + 1, lastMotionTime := input.now)
    else if CooldownElapsed(cfg, s.lastMotionTime, input.now) then
      s.(motionFrameCount := 0)
    else
      s
  }

  /** The start / write / stop decision on the counted state. */
  function Decide(cfg: Config, c: State, now: int): (d: Decision)
    requires Consistent(c)
    ensures Consistent(d.next)
    ensures d.next.motionFrameCount == c.motionFrameCount && d.next.lastMotionTime == c.lastMotionTime
    ensures d.next.frameCounter == c.frameCounter
  {
    if c.motionFrameCount >= cfg.motionPersistence then
      if !c.recording then
        var p := ClipPathAt(cfg.localWriteDir, now);
        Decision(c.(recording := true, videoFilename := Some(p)), Start(p), [Open(p), Write])
      else
        Decision(c, WriteFrame, [Write])
    else if c.recording && CooldownElapsed(cfg, c.lastMotionTime, now) then
      var p := c.videoFilename.value;
      Decision(c.(recording := false), Stop(p), [Release] + (if cfg.uploadEnabled then [Upload(p)] else []))
    else
      Decision(c, ContinueIdle, [])
  }

  datatype Rebased = Rebased(next: State, rebaselined: bool, crashed: bool)

  /** The periodic re-baseline and the frame counter. A zero interval makes
      the modulo raise, which ends the program before the counter moves. */
  function Rebase(cfg: Config, s: State): (b: Rebased)
    ensures b.crashed <==> cfg.updateFrameInterval == 0
    ensures b.next == s.(frameCounter := if b.crashed then s.frameCounter else s.frameCounter + 1)
  {
    if cfg.updateFrameInterval == 0 then
      Rebased(s, false, true)
    else
      Rebased(s.(frameCounter := s.frameCounter + 1), s.frameCounter % cfg.updateFrameInterval == 0, false)
  }

  /** One iteration of the frame loop. */
  function Step(cfg: Config, s: State, input: Reading): (t: TickResult)
    requires Consistent(s)
    ensures Consistent(t.next)
  {
    var d := Decide(cfg, CountMotion(cfg, s, input), input.now);
    var b := Rebase(cfg, d.next);
    TickResult(b.next, d.action, b.rebaselined, b.crashed,
               d.events + (if b.rebaselined then [Rebaseline] else []))
  }

  datatype RunResult = RunResult(final: State, events: seq<Event>, crashed: bool)

  /** The frame loop over a sequence of frames; a crash ends it. The
      sequence ends where the camera stops delivering frames or the quit key
      is pressed. */
  function Run(cfg: Config, s: State, inputs: seq<Reading>): (r: RunResult)
    requires Consistent(s)
    ensures Consistent(r.final)
    decreases |inputs|
  {
    if |inputs| == 0 then
      RunResult(s, [], false)
    else
      var prev := Run(cfg, s, inputs[..|inputs| - 1]);
      if prev.crashed then
        prev
      else
        var t := Step(cfg, prev.final, inputs[|inputs| - 1]);
        RunResult(t.next, prev.events + t.events, t.crashed)
  }

  /** The clean-up after the loop: a clip still being recorded is released
      and is not uploaded. */
  function Cleanup(s: State): (events: seq<Event>)
    ensures Release in events <==> s.recording
    ensures forall e | e in events :: e == Release
  {
    if s.recording then [Release] else []
  }

  /** Everything the program asks of its collaborators from the first frame
      to its exit. After a crash the clean-up does not run. */
  function Monitor(cfg: Config, inputs: seq<Reading>): (events: seq<Event>)
    ensures var r := Run(cfg, Initial(), inputs);
            r.events <= events && |events| <= |r.events| + 1
    ensures var r := Run(cfg, Initial(), inputs);
            |events| == |r.events| + 1 <==> !r.crashed && r.final.recording
    ensures var r := Run(cfg, Initial(), inputs);
            forall k | |r.events| <= k < |events| :: events[k] == Release
  {
    var r := Run(cfg, Initial(), inputs);
    if r.crashed then r.events else r.events + Cleanup(r.final)
  }
}
