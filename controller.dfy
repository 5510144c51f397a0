/** The frame loop as it runs: the loop variables are fields updated in
    place, once per frame, and the requests made of the writer, the uploader
    and the classifier are appended to a log. Each method is proved to do
    what the functions of module Recorder describe. */
module Controller {
  import opened Recorder
  import opened RunProperties

  class SessionController {
    const cooldownTime: int
    const motionPersistence: int
    const updateFrameInterval: int
    const localWriteDir: string
    const uploadEnabled: bool

    var recording: bool
    var videoFilename: Option<ClipPath>
    var frameCounter: nat
    var motionFrameCount: nat
    var lastMotionTime: int

    /** Every request made of the collaborators so far, in order. */
    ghost var log: seq<Event>

    /** The constants the loop runs with. */
    function Settings(): Config
    {
      Config(cooldownTime, motionPersistence, updateFrameInterval, localWriteDir, uploadEnabled)
    }

    /** The loop variables as a state record. */
    function Current(): State
      reads this
    {
      State(motionFrameCount, lastMotionTime, recording, videoFilename, frameCounter)
    }

    ghost predicate Valid()
      reads this
    {
      Consistent(Current())
    }

    /** The variables before the first frame. */
    constructor (cfg: Config)
      ensures Valid() && Settings() == cfg && Current() == Initial() && log == []
    {
      cooldownTime := cfg.cooldownTime;
      motionPersistence := cfg.motionPersistence;
      updateFrameInterval := cfg.updateFrameInterval;
      localWriteDir := cfg.localWriteDir;
      uploadEnabled := cfg.uploadEnabled;
      recording := false;
      videoFilename := None;
      frameCounter := 0;
      motionFrameCount := 0;
      lastMotionTime := 0;
      log := [];
    }

    /** One iteration of the frame loop. */
    method Tick(input: Reading) returns (action: Action, rebaselined: bool, crashed: bool)
      requires Valid()
      modifies this
      ensures Valid()
      ensures var t := Step(Settings(), old(Current()), input);
              Current() == t.next && action == t.action && rebaselined == t.rebaselined &&
              crashed == t.crashed && log == old(log) + t.events
    {
      CountFrame(input.motion, input.now);
      action := DecideFrame(input.now);
      rebaselined, crashed := RebaseFrame();
    }

    /** The motion counter update. */
    method CountFrame(motion: bool, now: int)
      requires Valid()
      modifies this
      ensures Valid() && log == old(log)
      ensures Current() == CountMotion(Settings(), old(Current()), Reading(motion, now))
    {
      if motion {
        motionFrameCount := motionFrameCount + 1;
        lastMotionTime := now;
      } else {
        motionFrameCount := if CooldownElapsed(Settings(), lastMotionTime, now) then 0 else motionFrameCount;
      }
    }

    /** The start / write / stop decision. */
    method DecideFrame(now: int) returns (action: Action)
      requires Valid()
      modifies this
      ensures Valid()
      ensures var d := Decide(Settings(), old(Current()), now);
              Current() == d.next && action == d.action && log == old(log) + d.events
    {
      if motionFrameCount >= motionPersistence {
        if !recording {
          var p := ClipPathAt(localWriteDir, now);
          videoFilename := Some(p);
          log := log + [Open(p)];
          recording := true;
          action := Start(p);
        } else {
          action := WriteFrame;
        }
        log := log + [Write];
      } else if recording && CooldownElapsed(Settings(), lastMotionTime, now) {
        log := log + [Release];
        recording := false;
        action := Stop(videoFilename.value);
        if uploadEnabled {
          log := log + [Upload(videoFilename.value)];
        }
      } else {
        action := ContinueIdle;
      }
    }

    /** The periodic re-baseline and the frame counter. */
    method RebaseFrame() returns (rebaselined: bool, crashed: bool)
      requires Valid()
      modifies this
      ensures Valid()
      ensures var b := Rebase(Settings(), old(Current()));
              Current() == b.next && rebaselined == b.rebaselined && crashed == b.crashed &&
              log == old(log) + (if rebaselined then [Rebaseline] else [])
    {
      if updateFrameInterval == 0 {
        // the modulo by zero raises and ends the program
        rebaselined, crashed := false, true;
        return;
      }
      crashed := false;
      rebaselined := frameCounter % updateFrameInterval == 0;
      if rebaselined {
        log := log + [Rebaseline];
      }
      frameCounter := frameCounter + 1;
    }

    /** The clean-up after the loop: a clip still being recorded is released. */
    method Shutdown()
      requires Valid()
      modifies this`log
      ensures log == old(log) + Cleanup(Current())
    {
      if recording {
        log := log + [Release];
      }
    }

    /** The frame loop over the frames the camera delivers, then the
        clean-up; a crash ends the program before the clean-up. */
    method RunLoop(inputs: seq<Reading>) returns (crashed: bool)
      requires Valid()
      modifies this
      ensures Valid()
      ensures var r := Run(Settings(), old(Current()), inputs);
              crashed == r.crashed && Current() == r.final &&
              log == old(log) + r.events + (if crashed then [] else Cleanup(r.final))
    {
      crashed := RunFrames(inputs);
      if !crashed {
        Shutdown();
      }
    }

    /** The frame loop, until the frames run out or a frame crashes. */
    method RunFrames(inputs: seq<Reading>) returns (crashed: bool)
      requires Valid()
      modifies this
      ensures Valid()
      ensures var r := Run(Settings(), old(Current()), inputs);
              crashed == r.crashed && Current() == r.final && log == old(log) + r.events
    {
      ghost var start := Current();
      ghost var before := log;
      ghost var r := RunResult(start, [], false);
      var i := 0;
      crashed := false;
      while i < |inputs| && !crashed
        invariant 0 <= i <= |inputs|
        invariant r == Run(Settings(), start, inputs[..i])
        invariant crashed == r.crashed && Current() == r.final && log == before + r.events
      {
        ghost var prev := r;
        crashed, r := Frame(before, prev, inputs[i]);
        assert r == Run(Settings(), start, inputs[..i + 1]) by {
          RunExtends(Settings(), start, inputs, i);
        }
        i := i + 1;
      }
      RunFinished(Settings(), start, inputs, i);
    }

    /** The loop body: one frame after a run that has not crashed. */
    method Frame(ghost before: seq<Event>, ghost prev: RunResult, input: Reading)
        returns (crashed: bool, ghost r: RunResult)
      requires Consistent(prev.final) && !prev.crashed
      requires Current() == prev.final && log == before + prev.events
      modifies this
      ensures var t := Step(Settings(), prev.final, input);
              r == RunResult(t.next, prev.events + t.events, t.crashed)
      ensures crashed == r.crashed && Current() == r.final && log == before + r.events
    {
      ghost var t := Step(Settings(), prev.final, input);
      r := RunResult(t.next, prev.events + t.events, t.crashed);
      assert before + r.events == (before + prev.events) + t.events;
      var _, _, c := Tick(input);
      crashed := c;
    }
  }
}
