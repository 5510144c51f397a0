/** Concrete frame sequences that pin down the thresholds: persistence 5,
    cooldown 2 seconds (3 seconds under the defaults), frames 33 ms apart
    unless said otherwise. */
module Scenarios {
  import opened Recorder

  function Cfg(): Config
  {
    Config(2, 5, 100, "clips", true)
  }

  /** Under the defaults, five motion frames start exactly one clip, on the
      fifth; a sixth motion frame only writes. */
  lemma FifthMotionFrameStartsOnce()
    ensures var cfg := DefaultConfig("clips", true);
            var t1 := Step(cfg, Initial(), Reading(true, 10000));
            var t2 := Step(cfg, t1.next, Reading(true, 10033));
            var t3 := Step(cfg, t2.next, Reading(true, 10066));
            var t4 := Step(cfg, t3.next, Reading(true, 10099));
            var t5 := Step(cfg, t4.next, Reading(true, 10132));
            var t6 := Step(cfg, t5.next, Reading(true, 10165));
            t1.action == t2.action == t3.action == t4.action == ContinueIdle &&
            t5.action == Start(ClipPath("clips", 10)) &&
            t6.action == WriteFrame && t6.next.motionFrameCount == 6
  {
  }

  /** A recording state: five motion frames, the last at 10 s. */
  function RecordingState(): (s: State)
    ensures Consistent(s)
  {
    State(5, 10000, true, Some(ClipPath("clips", 10)), 5)
  }

  /** A quiet gap shorter than the cooldown neither stops the clip nor
      resets the count; the first quiet frame after more than the cooldown
      stops it, once. */
  lemma CooldownStopsOnce()
    ensures var t1 := Step(Cfg(), RecordingState(), Reading(false, 11500));
            var t2 := Step(Cfg(), t1.next, Reading(false, 12000));
            var t3 := Step(Cfg(), t2.next, Reading(false, 12001));
            var t4 := Step(Cfg(), t3.next, Reading(false, 12034));
            t1.action == WriteFrame && t1.next.motionFrameCount == 5 &&
            t2.action == WriteFrame &&
            t3.action == Stop(ClipPath("clips", 10)) &&
            t3.events == [Release, Upload(ClipPath("clips", 10))] &&
            t4.action == ContinueIdle && t4.events == []
  {
  }

  /** Four motion frames, one quiet frame, four motion frames. At 33 ms a
      frame the quiet frame falls inside the cooldown, keeps the count at 4,
      and the sixth frame starts a clip. */
  lemma GraceFrameKeepsCount()
    ensures var t1 := Step(Cfg(), Initial(), Reading(true, 10000));
            var t2 := Step(Cfg(), t1.next, Reading(true, 10033));
            var t3 := Step(Cfg(), t2.next, Reading(true, 10066));
            var t4 := Step(Cfg(), t3.next, Reading(true, 10099));
            var t5 := Step(Cfg(), t4.next, Reading(false, 10132));
            var t6 := Step(Cfg(), t5.next, Reading(true, 10165));
            t5.next.motionFrameCount == 4 && t6.action == Start(ClipPath("clips", 10))
  {
  }

  /** The same frames 3 s apart: the quiet frame comes after the cooldown,
      resets the count, and the four motion frames after it start nothing. */
  lemma SlowFramesResetCount()
    ensures var t1 := Step(Cfg(), Initial(), Reading(true, 10000));
            var t2 := Step(Cfg(), t1.next, Reading(true, 13000));
            var t3 := Step(Cfg(), t2.next, Reading(true, 16000));
            var t4 := Step(Cfg(), t3.next, Reading(true, 19000));
            var t5 := Step(Cfg(), t4.next, Reading(false, 22000));
            var t6 := Step(Cfg(), t5.next, Reading(true, 25000));
            var t7 := Step(Cfg(), t6.next, Reading(true, 28000));
            var t8 := Step(Cfg(), t7.next, Reading(true, 31000));
            var t9 := Step(Cfg(), t8.next, Reading(true, 34000));
            t5.next.motionFrameCount == 0 && t9.next.motionFrameCount == 4 && !t9.next.recording
  {
  }
}
