/** Clip names carry the second in which the clip was started. With a
    cooldown of at least one second, a clock that does not go back and a
    positive threshold, every clip the program opens has a later second than
    the one before, so no clip overwrites an earlier one. With a zero
    cooldown two clips can be started within one second and get the same name. */
module ClipNames {
  import opened Recorder
  import opened RunProperties

  /** The seconds of the opened clips increase strictly, in log order. */
  ghost predicate OpensIncrease(events: seq<Event>)
  {
    forall i, j | 0 <= i < j < |events| && events[i].Open? && events[j].Open? ::
      events[i].path.second < events[j].path.second
  }

  /** Every clip opened so far has a second at most `bound`. */
  ghost predicate OpensUpTo(events: seq<Event>, bound: int)
  {
    forall i | 0 <= i < |events| && events[i].Open? :: events[i].path.second <= bound
  }

  /** What holds between two frames, `prevNow` being the clock of the last one. */
  ghost predicate Ordered(cfg: Config, s: State, events: seq<Event>, prevNow: int)
  {
    && Consistent(s)
    && s.lastMotionTime <= prevNow
    && (s.videoFilename.None? ==> forall i | 0 <= i < |events| :: !events[i].Open?)
    && (s.videoFilename.Some? ==> OpensUpTo(events, s.videoFilename.value.second))
    // the clip being recorded was started by a motion frame no later than the last one
    && (s.recording ==> s.videoFilename.value.second * MillisPerSecond <= s.lastMotionTime)
    // a clip that was stopped lies in a second before the last frame's
    && (!s.recording && s.videoFilename.Some? ==> (s.videoFilename.value.second + 1) * MillisPerSecond <= prevNow)
    && (s.motionFrameCount >= cfg.motionPersistence ==> s.recording)
    && OpensIncrease(events)
  }

  /** Appending the events of one frame that opens at most one clip, at the
      front and in a later second than all earlier clips, keeps the order. */
  lemma AppendKeepsOrder(events: seq<Event>, more: seq<Event>, bound: int)
    requires OpensIncrease(events) && OpensUpTo(events, bound)
    requires forall k | 0 <= k < |more| && more[k].Open? :: k == 0 && more[0].path.second > bound
    ensures OpensIncrease(events + more)
  {
  }

  /** A larger clock bound keeps the invariant. */
  lemma OrderedLater(cfg: Config, s: State, events: seq<Event>, prevNow: int, later: int)
    requires Ordered(cfg, s, events, prevNow) && prevNow <= later
    ensures Ordered(cfg, s, events, later)
  {
  }

  /** One frame at a clock no earlier than the previous one keeps the invariant. */
  lemma StepKeepsOrder(cfg: Config, s: State, events: seq<Event>, prevNow: int, input: Reading)
    requires cfg.cooldownTime >= 1 && cfg.motionPersistence >= 1
    requires Ordered(cfg, s, events, prevNow) && prevNow <= input.now
    ensures var t := Step(cfg, s, input);
            Ordered(cfg, t.next, events + t.events, input.now)
  {
    // A clip is started only by a motion frame, since the count was below
    // the threshold before it; a clip is stopped only by a quiet frame, more
    // than a second after its last motion and so in a later second.
  }

  /** The clock of the last frame, 0 before the first. */
  function LastNow(inputs: seq<Reading>): int
  {
    if |inputs| == 0 then 0 else inputs[|inputs| - 1].now
  }

  lemma {:induction false} RunKeepsOrder(cfg: Config, inputs: seq<Reading>)
    requires cfg.cooldownTime >= 1 && cfg.motionPersistence >= 1
    requires forall i | 0 <= i < |inputs| :: inputs[i].now >= 0
    requires forall i, j | 0 <= i < j < |inputs| :: inputs[i].now <= inputs[j].now
    ensures Ordered(cfg, Run(cfg, Initial(), inputs).final, Run(cfg, Initial(), inputs).events, LastNow(inputs))
    decreases |inputs|
  {
    if |inputs| > 0 {
      var front := inputs[..|inputs| - 1];
      var input := inputs[|inputs| - 1];
      RunKeepsOrder(cfg, front);
      var prev := Run(cfg, Initial(), front);
      assert LastNow(front) <= input.now;
      OrderedLater(cfg, prev.final, prev.events, LastNow(front), input.now);
      if !prev.crashed {
        StepKeepsOrder(cfg, prev.final, prev.events, input.now, input);
      }
    }
  }

  /** With a cooldown of at least one second, a positive threshold and a
      clock that starts at or after 0 and does not go back, the clips of a
      run are opened in strictly increasing seconds: no two share a name. */
  lemma ClipNamesIncrease(cfg: Config, inputs: seq<Reading>)
    requires cfg.cooldownTime >= 1 && cfg.motionPersistence >= 1
    requires forall i | 0 <= i < |inputs| :: inputs[i].now >= 0
    requires forall i, j | 0 <= i < j < |inputs| :: inputs[i].now <= inputs[j].now
    ensures var events := Run(cfg, Initial(), inputs).events;
            forall i, j | 0 <= i < j < |events| && events[i].Open? && events[j].Open? ::
              events[i].path != events[j].path
  {
    RunKeepsOrder(cfg, inputs);
  }

  /** With a zero cooldown a clip stopped 100 ms after it started is
      followed, 100 ms later, by a clip with the same name. */
  lemma ZeroCooldownReusesClipName()
    ensures var cfg := Config(0, 1, 100, "clips", true);
            var inputs := [Reading(true, 10100), Reading(false, 10200), Reading(true, 10300)];
            var p := ClipPath("clips", 10);
            Run(cfg, Initial(), inputs).events ==
              [Open(p), Write, Rebaseline, Release, Upload(p), Open(p), Write]
  {
    var cfg := Config(0, 1, 100, "clips", true);
    var inputs := [Reading(true, 10100), Reading(false, 10200), Reading(true, 10300)];
    var p := ClipPath("clips", 10);
    var t1 := Step(cfg, Initial(), inputs[0]);
    assert t1.events == [Open(p), Write, Rebaseline];
    var t2 := Step(cfg, t1.next, inputs[1]);
    assert t2.events == [Release, Upload(p)];
    var t3 := Step(cfg, t2.next, inputs[2]);
    assert t3.events == [Open(p), Write];
    assert inputs[..0] == [];
    RunExtends(cfg, Initial(), inputs, 0);
    RunExtends(cfg, Initial(), inputs, 1);
    RunExtends(cfg, Initial(), inputs, 2);
    assert inputs[..3] == inputs;
  }
}
