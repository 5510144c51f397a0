/** What the frame loop does over a whole sequence of frames, and what the
    program does from its first frame to its exit. */
module RunProperties {
  import opened Recorder
  import opened WriterProtocol
  import opened TickProperties

  /** The run over one more frame is one more step of the run before it. */
  lemma RunExtends(cfg: Config, s: State, inputs: seq<Reading>, i: nat)
    requires Consistent(s) && i < |inputs|
    ensures var prev := Run(cfg, s, inputs[..i]);
            Run(cfg, s, inputs[..i + 1]) ==
              if prev.crashed then prev
              else
                var t := Step(cfg, prev.final, inputs[i]);
                RunResult(t.next, prev.events + t.events, t.crashed)
  {
    assert inputs[..i + 1][..i] == inputs[..i];
  }

  /** After a crash no further frame is processed. */
  lemma {:induction false} RunStaysCrashed(cfg: Config, s: State, inputs: seq<Reading>, k: nat)
    requires Consistent(s) && k <= |inputs| && Run(cfg, s, inputs[..k]).crashed
    ensures Run(cfg, s, inputs) == Run(cfg, s, inputs[..k])
    decreases |inputs|
  {
    if k == |inputs| {
      assert inputs[..k] == inputs;
    } else {
      var front := inputs[..|inputs| - 1];
      assert front[..k] == inputs[..k];
      RunStaysCrashed(cfg, s, front, k);
    }
  }

  /** A loop that stopped, because the frames ran out or a frame crashed,
      has done the whole run. */
  lemma RunFinished(cfg: Config, s: State, inputs: seq<Reading>, i: nat)
    requires Consistent(s) && i <= |inputs|
    requires i == |inputs| || Run(cfg, s, inputs[..i]).crashed
    ensures Run(cfg, s, inputs) == Run(cfg, s, inputs[..i])
  {
    if i == |inputs| {
      assert inputs[..i] == inputs;
    } else {
      RunStaysCrashed(cfg, s, inputs, i);
    }
  }

  /** The events of a run keep to the writer protocol and lead from the
      phase of the first state to the phase of the last. */
  lemma {:induction false} RunFollowsProtocol(cfg: Config, s: State, inputs: seq<Reading>)
    requires Consistent(s)
    ensures Replay(cfg.uploadEnabled, PhaseOf(s), Run(cfg, s, inputs).events) == Some(PhaseOf(Run(cfg, s, inputs).final))
    decreases |inputs|
  {
    if |inputs| > 0 {
      var front := inputs[..|inputs| - 1];
      var prev := Run(cfg, s, front);
      RunFollowsProtocol(cfg, s, front);
      if !prev.crashed {
        var t := Step(cfg, prev.final, inputs[|inputs| - 1]);
        StepFollowsProtocol(cfg, prev.final, inputs[|inputs| - 1]);
        ReplayConcat(cfg.uploadEnabled, PhaseOf(s), prev.events, t.events);
      }
    }
  }

  /** From the first frame to the exit the program keeps to the writer
      protocol. On a normal exit no clip is left open: a clip still being
      recorded is released by the clean-up and its upload is never made.
      After a crash the clip open at that moment stays open. */
  lemma MonitorFollowsProtocol(cfg: Config, inputs: seq<Reading>)
    ensures var r := Run(cfg, Initial(), inputs);
            var end := Replay(cfg.uploadEnabled, Idle, Monitor(cfg, inputs));
            (r.crashed ==> end == Some(PhaseOf(r.final))) &&
            (!r.crashed ==> end == Some(if r.final.recording && cfg.uploadEnabled
                                        then Released(r.final.videoFilename.value) else Idle))
  {
    var r := Run(cfg, Initial(), inputs);
    RunFollowsProtocol(cfg, Initial(), inputs);
    if !r.crashed {
      ReplayConcat(cfg.uploadEnabled, Idle, r.events, Cleanup(r.final));
      if r.final.recording {
        ReplayCons(cfg.uploadEnabled, PhaseOf(r.final), Release, []);
      }
    }
  }

  /** Without an uploader the program never uploads; with one, each upload
      comes right after the release of the clip it carries. */
  lemma MonitorUploadsFinishedClips(cfg: Config, inputs: seq<Reading>, i: nat)
    requires i < |Monitor(cfg, inputs)|
    ensures var events := Monitor(cfg, inputs);
            events[i].Upload? ==>
              cfg.uploadEnabled && 0 < i && events[i - 1] == Release &&
              Replay(true, Idle, events[..i - 1]) == Some(Recording(events[i].path))
  {
    var events := Monitor(cfg, inputs);
    MonitorFollowsProtocol(cfg, inputs);
    if events[i].Upload? {
      if cfg.uploadEnabled {
        UploadFollowsItsRelease(Idle, events, i);
      } else {
        NoUploadWithoutUploader(Idle, events);
      }
    }
  }

  /** With an uploader, every release during the loop is followed at once
      by the upload of the clip it closed. */
  lemma RunUploadsEveryStoppedClip(cfg: Config, inputs: seq<Reading>, i: nat)
    requires cfg.uploadEnabled
    requires i < |Run(cfg, Initial(), inputs).events| && Run(cfg, Initial(), inputs).events[i] == Release
    ensures var events := Run(cfg, Initial(), inputs).events;
            i + 1 < |events| && events[i + 1].Upload? &&
            Replay(true, Idle, events[..i]) == Some(Recording(events[i + 1].path))
  {
    RunFollowsProtocol(cfg, Initial(), inputs);
    ReleaseIsFollowedByUpload(Idle, Run(cfg, Initial(), inputs).events, i);
  }

  /** No clip is opened while another one is: one start per session. */
  lemma RunOpensOnlyWhenIdle(cfg: Config, inputs: seq<Reading>, i: nat)
    requires i < |Run(cfg, Initial(), inputs).events| && Run(cfg, Initial(), inputs).events[i].Open?
    ensures Replay(cfg.uploadEnabled, Idle, Run(cfg, Initial(), inputs).events[..i]) == Some(Idle)
  {
    RunFollowsProtocol(cfg, Initial(), inputs);
    OpensOnlyWhenIdle(cfg.uploadEnabled, Idle, Run(cfg, Initial(), inputs).events, i);
  }

  /** Recording implies the count is at the threshold after every frame, and
      once a frame has been processed the converse holds as well. */
  lemma {:induction false} RunKeepsRecordingPersistent(cfg: Config, s: State, inputs: seq<Reading>)
    requires Consistent(s) && RecordingIsPersistent(cfg, s)
    ensures var r := Run(cfg, s, inputs);
            RecordingIsPersistent(cfg, r.final) &&
            (|inputs| > 0 ==> (r.final.recording <==> r.final.motionFrameCount >= cfg.motionPersistence))
    decreases |inputs|
  {
    if |inputs| > 0 {
      var front := inputs[..|inputs| - 1];
      var prev := Run(cfg, s, front);
      RunKeepsRecordingPersistent(cfg, s, front);
      if !prev.crashed {
        StepKeepsRecordingPersistent(cfg, prev.final, inputs[|inputs| - 1]);
      } else {
        assert |front| > 0;
      }
    }
  }

  /** With a non-zero interval the loop never crashes and counts every frame. */
  lemma {:induction false} RunCountsFrames(cfg: Config, s: State, inputs: seq<Reading>)
    requires Consistent(s) && cfg.updateFrameInterval != 0
    ensures !Run(cfg, s, inputs).crashed
    ensures Run(cfg, s, inputs).final.frameCounter == s.frameCounter + |inputs|
    decreases |inputs|
  {
    if |inputs| > 0 {
      RunCountsFrames(cfg, s, inputs[..|inputs| - 1]);
    }
  }

  /** With a zero interval the first frame is processed up to the
      re-baseline, which crashes the program. */
  lemma {:induction false} ZeroIntervalCrashesOnFirstFrame(cfg: Config, s: State, inputs: seq<Reading>)
    requires Consistent(s) && cfg.updateFrameInterval == 0 && |inputs| > 0
    ensures var t := Step(cfg, s, inputs[0]);
            Run(cfg, s, inputs) == RunResult(t.next, t.events, true)
    decreases |inputs|
  {
    if |inputs| == 1 {
      assert inputs[..0] == [];
    } else {
      var front := inputs[..|inputs| - 1];
      ZeroIntervalCrashesOnFirstFrame(cfg, s, front);
    }
  }

  /** The k-th frame of the program re-baselines exactly when k is a
      multiple of the interval: frames 0, N, 2N, ... */
  lemma RebaselineSchedule(cfg: Config, inputs: seq<Reading>, k: nat)
    requires cfg.updateFrameInterval != 0 && k < |inputs|
    ensures Step(cfg, Run(cfg, Initial(), inputs[..k]).final, inputs[k]).rebaselined <==>
            k % cfg.updateFrameInterval == 0
  {
    RunCountsFrames(cfg, Initial(), inputs[..k]);
  }

  /** Re-baselining never touches the session: with any two non-zero
      intervals and any start value of the frame counter, a run ends in the
      same session state and makes the same session events. */
  lemma {:induction false} RebaselineNeverTouchesSession(cfg: Config, s: State, inputs: seq<Reading>, interval: int, counter: nat)
    requires Consistent(s) && cfg.updateFrameInterval != 0 && interval != 0
    ensures var a := Run(cfg, s, inputs);
            var b := Run(cfg.(updateFrameInterval := interval), s.(frameCounter := counter), inputs);
            SessionOf(a.final) == SessionOf(b.final) && SessionEvents(a.events) == SessionEvents(b.events)
    decreases |inputs|
  {
    var cfg' := cfg.(updateFrameInterval := interval);
    if |inputs| > 0 {
      var front := inputs[..|inputs| - 1];
      var input := inputs[|inputs| - 1];
      RebaselineNeverTouchesSession(cfg, s, front, interval, counter);
      var pa := Run(cfg, s, front);
      var pb := Run(cfg', s.(frameCounter := counter), front);
      RunCountsFrames(cfg, s, front);
      RunCountsFrames(cfg', s.(frameCounter := counter), front);
      assert pa.final.(frameCounter := pb.final.frameCounter) == pb.final;
      RebaselineLeavesSessionAlone(cfg, pa.final, input, interval, pb.final.frameCounter);
      var ta := Step(cfg, pa.final, input);
      var tb := Step(cfg', pb.final, input);
      SessionEventsConcat(pa.events, ta.events);
      SessionEventsConcat(pb.events, tb.events);
    }
  }
}
