/** What one iteration of the frame loop does, stated event by event. */
module TickProperties {
  import opened Recorder
  import opened WriterProtocol

  /** A motion frame adds one to the count and records the time of motion. */
  lemma MotionFrameCounts(cfg: Config, s: State, input: Reading)
    requires Consistent(s) && input.motion
    ensures Step(cfg, s, input).next.motionFrameCount == s.motionFrameCount + 1
    ensures Step(cfg, s, input).next.lastMotionTime == input.now
  {
  }

  /** A frame without motion resets the count only once the cooldown has
      elapsed, and never moves the time of the last motion. */
  lemma QuietFrameCounts(cfg: Config, s: State, input: Reading)
    requires Consistent(s) && !input.motion
    ensures Step(cfg, s, input).next.lastMotionTime == s.lastMotionTime
    ensures Step(cfg, s, input).next.motionFrameCount ==
            if CooldownElapsed(cfg, s.lastMotionTime, input.now) then 0 else s.motionFrameCount
  {
  }

  /** A clip is opened exactly when the counted motion reaches the threshold
      and nothing is being recorded; it is named after the frame's second,
      it becomes the recorded clip, and it is the only clip opened by the frame. */
  lemma StartsOnlyWhenPersistentAndIdle(cfg: Config, s: State, input: Reading)
    requires Consistent(s)
    ensures var c := CountMotion(cfg, s, input);
            var t := Step(cfg, s, input);
            (t.action.Start? <==> c.motionFrameCount >= cfg.motionPersistence && !s.recording)
    ensures var t := Step(cfg, s, input);
            t.action.Start? ==>
              t.action.path == ClipPathAt(cfg.localWriteDir, input.now) &&
              t.next.recording && t.next.videoFilename == Some(t.action.path) &&
              t.events[..2] == [Open(t.action.path), Write]
    ensures var t := Step(cfg, s, input);
            forall i | 0 <= i < |t.events| && t.events[i].Open? :: i == 0 && t.action.Start?
  {
  }

  /** The frame is written exactly when the counted motion reaches the
      threshold, and then a clip is open, whether it was opened just now or earlier. */
  lemma WritesIffPersistent(cfg: Config, s: State, input: Reading)
    requires Consistent(s)
    ensures var c := CountMotion(cfg, s, input);
            var t := Step(cfg, s, input);
            (Write in t.events <==> c.motionFrameCount >= cfg.motionPersistence) &&
            (Write in t.events ==> t.next.recording)
  {
  }

  /** A clip is released exactly when the counted motion is below the
      threshold, a clip is being recorded and the cooldown has elapsed; the
      released clip is the one that was started, and it is uploaded once,
      under that path, when an uploader exists, and otherwise not at all. */
  lemma StopsOnlyAfterCooldown(cfg: Config, s: State, input: Reading)
    requires Consistent(s)
    ensures var c := CountMotion(cfg, s, input);
            var t := Step(cfg, s, input);
            (t.action.Stop? <==>
              c.motionFrameCount < cfg.motionPersistence && s.recording &&
              CooldownElapsed(cfg, c.lastMotionTime, input.now))
    ensures var t := Step(cfg, s, input);
            (t.action.Stop? ==> s.videoFilename == Some(t.action.path) && !t.next.recording) &&
            (Release in t.events <==> t.action.Stop?)
    ensures var t := Step(cfg, s, input);
            forall q :: multiset(t.events)[Upload(q)] ==
                        if t.action.Stop? && cfg.uploadEnabled && q == t.action.path then 1 else 0
  {
  }

  /** Recording implies that the count is at the threshold. */
  ghost predicate RecordingIsPersistent(cfg: Config, s: State)
  {
    s.recording ==> s.motionFrameCount >= cfg.motionPersistence
  }

  /** After every frame a clip is recorded exactly when the count is at the
      threshold: the reset of a quiet frame and the stop test use the same
      cooldown condition on the same clock reading. */
  lemma StepKeepsRecordingPersistent(cfg: Config, s: State, input: Reading)
    requires Consistent(s) && RecordingIsPersistent(cfg, s)
    ensures var t := Step(cfg, s, input);
            RecordingIsPersistent(cfg, t.next) &&
            (t.next.recording <==> t.next.motionFrameCount >= cfg.motionPersistence)
  {
  }

  /** While recording, every frame is either written or ends the clip: the
      count cannot fall below the threshold while the cooldown runs. A clip
      ends on a quiet frame after the cooldown, and never when the threshold
      is not positive. */
  lemma RecordingFrameIsWrittenOrStops(cfg: Config, s: State, input: Reading)
    requires Consistent(s) && RecordingIsPersistent(cfg, s) && s.recording
    ensures var t := Step(cfg, s, input);
            (t.action == WriteFrame || t.action.Stop?) &&
            (t.action.Stop? <==>
              !input.motion && CooldownElapsed(cfg, s.lastMotionTime, input.now) && cfg.motionPersistence > 0)
  {
  }

  /** The classifier is reset exactly on frames whose counter is a multiple
      of the interval, frame 0 included; the counter moves by one per frame;
      a zero interval crashes the loop. */
  lemma RebaselinesOnSchedule(cfg: Config, s: State, input: Reading)
    requires Consistent(s)
    ensures var t := Step(cfg, s, input);
            (t.crashed <==> cfg.updateFrameInterval == 0) &&
            (t.rebaselined <==> cfg.updateFrameInterval != 0 && s.frameCounter % cfg.updateFrameInterval == 0) &&
            (Rebaseline in t.events <==> t.rebaselined) &&
            t.next.frameCounter == if t.crashed then s.frameCounter else s.frameCounter + 1
  {
  }

  /** The events that concern the recording session: all but the re-baselines. */
  function SessionEvents(events: seq<Event>): (r: seq<Event>)
    ensures forall e | e in r :: e in events && e != Rebaseline
    ensures forall e | e in events && e != Rebaseline :: e in r
    decreases |events|
  {
    if events == [] then []
    else if events[0] == Rebaseline then SessionEvents(events[1..])
    else [events[0]] + SessionEvents(events[1..])
  }

  lemma {:induction false} SessionEventsConcat(a: seq<Event>, b: seq<Event>)
    ensures SessionEvents(a + b) == SessionEvents(a) + SessionEvents(b)
    decreases |a|
  {
    if a == [] {
      assert a + b == b;
    } else {
      assert (a + b)[0] == a[0];
      assert (a + b)[1..] == a[1..] + b;
      SessionEventsConcat(a[1..], b);
    }
  }

  /** The state of the session without the frame counter. */
  function SessionOf(s: State): (v: State)
    ensures v.frameCounter == 0
    ensures v.(frameCounter := s.frameCounter) == s
  {
    s.(frameCounter := 0)
  }

  /** Neither the frame counter nor the re-baseline interval has any effect
      on the session: a frame produces the same session state, the same
      action and the same session events whatever they are. */
  lemma RebaselineLeavesSessionAlone(cfg: Config, s: State, input: Reading, interval: int, counter: nat)
    requires Consistent(s)
    ensures var t := Step(cfg, s, input);
            var u := Step(cfg.(updateFrameInterval := interval), s.(frameCounter := counter), input);
            SessionOf(t.next) == SessionOf(u.next) && t.action == u.action &&
            SessionEvents(t.events) == SessionEvents(u.events)
  {
    var d := Decide(cfg, CountMotion(cfg, s, input), input.now);
    var cfg' := cfg.(updateFrameInterval := interval);
    var d' := Decide(cfg', CountMotion(cfg', s.(frameCounter := counter), input), input.now);
    assert d'.events == d.events;
    var t := Step(cfg, s, input);
    var u := Step(cfg', s.(frameCounter := counter), input);
    SessionEventsConcat(d.events, if t.rebaselined then [Rebaseline] else []);
    SessionEventsConcat(d.events, if u.rebaselined then [Rebaseline] else []);
    assert SessionEvents([Rebaseline]) == [];
  }

  /** One frame keeps to the writer protocol: from the phase of the state
      before it, its events lead to the phase of the state after it. */
  lemma StepFollowsProtocol(cfg: Config, s: State, input: Reading)
    requires Consistent(s)
    ensures var t := Step(cfg, s, input);
            Replay(cfg.uploadEnabled, PhaseOf(s), t.events) == Some(PhaseOf(t.next))
  {
    var u := cfg.uploadEnabled;
    var c := CountMotion(cfg, s, input);
    var d := Decide(cfg, c, input.now);
    var t := Step(cfg, s, input);
    var tail := if t.rebaselined then [Rebaseline] else [];
    assert Replay(u, PhaseOf(d.next), tail) == Some(PhaseOf(d.next));
    ReplayConcat(u, PhaseOf(s), d.events, tail);
    if d.action.Start? {
      assert d.events == [Open(d.action.path), Write];
      assert Replay(u, PhaseOf(s), d.events) == Replay(u, Recording(d.action.path), [Write]);
    } else if d.action.Stop? {
      var p := d.action.path;
      if u {
        assert d.events == [Release, Upload(p)];
        assert Replay(u, PhaseOf(s), d.events) == Replay(u, Released(p), [Upload(p)]);
      } else {
        assert d.events == [Release];
      }
    }
  }
}
