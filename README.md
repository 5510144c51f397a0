# Motion-triggered recording state machine

A model of the frame loop of a single-camera motion recorder (`main.py`). Each
frame is classified as motion or no motion. From that signal and the clock,
the loop keeps five variables up to date: a motion frame count, the time of
the last motion, whether a clip is being recorded, the clip's file name, and a
frame counter. With them it decides when to open a clip, when to write the frame
into it, and when to release the clip and hand it to the uploader. It also
resets the background model every `UPDATE_FRAME_INTERVAL` frames.

The model has two layers:

- Module `Recorder` holds the state as a record. `Step` is one loop iteration
  and `Run` is the loop over a sequence of frames. `Cleanup` is the release on
  exit, and `Monitor` runs the loop and then the clean-up. The camera, the
  classifier, the video writer and the uploader are outside the model. What
  the loop asks of them comes back as a list of events: `Open(p)`, `Write`,
  `Release`, `Upload(p)` and `Rebaseline`.
- Module `Controller` holds class `SessionController`. Its fields are the loop
  variables, updated in place, and a ghost log of the events. `Tick` is split
  into `CountFrame`, `DecideFrame` and `RebaseFrame`, following lines 82-86,
  88-106 and 109-112. `RunLoop` is the `while True` loop followed by the
  clean-up. `RunFrames` is the loop alone, and `Frame` is one pass of its
  body. Each method is proved equal to the matching function.

Module `WriterProtocol` is an independent reference for what the collaborators
may be asked, and in what order. It is a small automaton over events. A clip
is opened only when none is open, and frames are written only into an open
clip. With an uploader, a release is followed at once by exactly one upload
under the released clip's path. `RunProperties` proves that every run keeps to
this protocol. `ClipNames`, `Startup` and `Scenarios` cover clip naming, the
upload gate chosen at start-up, and concrete frame sequences.

Modelling choices:

- Time is in integer milliseconds, and each frame reads the clock once. The
  source reads `time()` at lines 84, 86 and 98, and `datetime.now()` at line 91.
  `COOLDOWN_TIME` is compared as `now - last > COOLDOWN_TIME * 1000`.
- The clip path is `ClipPath(dir, second)`. It stands for
  `join(LOCAL_WRITE_DIR, "motion_<second as local time>.mp4")`. Two paths are
  equal exactly when their directories and seconds are equal.
- `COOLDOWN_TIME`, `MOTION_PERSISTENCE`, `UPDATE_FRAME_INTERVAL`,
  `LOCAL_WRITE_DIR`, and whether an uploader exists are parameters (`Config`).
  `DefaultConfig` gives the defaults.
- With `UPDATE_FRAME_INTERVAL = 0`, the modulo at line 109 raises. This happens
  on the first frame, after its session part has run. The exception is not
  caught, so the program ends without the clean-up. The model reports this as
  `crashed`.
- Python's `%` and Dafny's `%` differ for a negative interval, but both give 0
  exactly on multiples. Only that test is used.

Where the code and its documented design differ, the model follows the code:

- The clip name is not cleared when a clip stops (`video_filename` keeps its
  value). The clip still open is tracked by the protocol phase instead.
- With one clock reading per frame, a clip being recorded always has its count
  at the threshold. So every frame of a recording either writes or stops the
  clip (`RecordingFrameIsWrittenOrStops`). No frame leaves a clip open without
  writing to it.

## Model

| member | source | states |
|---|---|---|
| Recorder.Initial | main.py:53-57 | the state before the first frame: not recording, no clip name, all counters and the last motion time at 0 |
| Recorder.DefaultConfig | main.py:16-25 | default cooldown 3 s, persistence 5 frames, re-baseline interval 100 frames |
| Recorder.ClipPathAt | main.py:91-92 | a clip started at `now` is named after the second `now` falls in, in the configured directory |
| Recorder.CountMotion | main.py:82-86 | the counter update touches only the count and the last motion time |
| Recorder.Decide | main.py:88-106 | the start/write/stop decision keeps a recording's clip name set and never changes the count, the last motion time or the frame counter |
| Recorder.Rebase | main.py:109-112 | a zero interval crashes before the counter moves; otherwise the counter increases by one and nothing else changes |
| Recorder.Step | main.py:69-112 | one iteration keeps a recording's clip name set |
| Recorder.Run | main.py:69-112 | the loop over a sequence of frames keeps a recording's clip name set |
| Recorder.Cleanup | main.py:125-128 | on exit a clip is released exactly when one is being recorded, and nothing else (in particular no upload) is requested |
| Recorder.Monitor | main.py:69-128 | the program from the first frame to exit: the loop's events, then a single release exactly when the loop did not crash and a clip is still recording; `RunProperties.MonitorFollowsProtocol` states what the whole sequence means |
| TickProperties.MotionFrameCounts | main.py:82-84 | a motion frame adds exactly one to the count and sets the last motion time to the frame's clock |
| TickProperties.QuietFrameCounts | main.py:85-86 | a quiet frame resets the count when more than the cooldown has passed (strictly), keeps it otherwise, and never moves the last motion time |
| TickProperties.StartsOnlyWhenPersistentAndIdle | main.py:88-96 | a clip is opened exactly when the counted motion reaches the threshold and nothing is recording; it gets the frame's name, becomes the recorded clip, and is the only clip the frame opens |
| TickProperties.WritesIffPersistent | main.py:88-97 | the frame is written exactly when the count reaches the threshold, and then a clip is being recorded |
| TickProperties.StopsOnlyAfterCooldown | main.py:98-106 | a clip is released exactly when the count is below the threshold, a clip is recording and the cooldown has elapsed; the released clip is the one started; it is uploaded exactly once, under that path, when an uploader exists, and otherwise never |
| TickProperties.StepKeepsRecordingPersistent | main.py:82-101 | if recording implies the count is at the threshold before a frame, then after it recording holds exactly when the count is at the threshold |
| TickProperties.RecordingFrameIsWrittenOrStops | main.py:86-101 | while recording, every frame writes or stops, and it stops exactly on a quiet frame after the cooldown with a positive threshold |
| TickProperties.RebaselinesOnSchedule | main.py:109-112 | the classifier is reset exactly when the counter is a multiple of a non-zero interval; the counter moves by one; a zero interval crashes |
| TickProperties.RebaselineLeavesSessionAlone | main.py:108-112 | the frame counter and the interval do not affect a frame's session state, action or session events |
| TickProperties.StepFollowsProtocol | main.py:82-112 | a frame's events take the writer protocol from the phase before the frame to the phase after it |
| WriterProtocol.PhaseOf | main.py:53-56 | a clip is open under its name exactly while recording |
| WriterProtocol.OpensOnlyWhenIdle | main.py:89-95 | in an accepted event sequence, a clip is opened only when none is open |
| WriterProtocol.NoUploadWithoutUploader | main.py:105-106 | an event sequence accepted without an uploader contains no upload |
| WriterProtocol.UploadFollowsItsRelease | main.py:100-106 | an upload comes right after a release and carries the path of the clip that release closed |
| WriterProtocol.ReleaseIsFollowedByUpload | main.py:100-106 | with an uploader, a release is followed at once by the upload of the released clip |
| RunProperties.RunStaysCrashed | main.py:109 | after a crash, no further frame is processed |
| RunProperties.RunFollowsProtocol | main.py:69-112 | every run keeps to the writer protocol, from the first state's phase to the last state's phase |
| RunProperties.MonitorFollowsProtocol | main.py:69-128 | from the first frame to exit the program keeps to the protocol; a normal exit leaves no clip open, and a clip released by the clean-up is never uploaded |
| RunProperties.MonitorUploadsFinishedClips | main.py:98-106 | every upload in the program's events comes with an uploader, right after the release of the clip it carries |
| RunProperties.RunUploadsEveryStoppedClip | main.py:98-106 | with an uploader, each release in the loop is followed at once by the upload of the clip it closed |
| RunProperties.RunOpensOnlyWhenIdle | main.py:88-96 | in the loop's events no clip is opened while another is open: one start per session |
| RunProperties.RunKeepsRecordingPersistent | main.py:82-101 | after every frame, recording implies the count is at the threshold; once any frame is processed, the converse also holds |
| RunProperties.RunCountsFrames | main.py:109-112 | with a non-zero interval the loop never crashes, and the counter grows by the number of frames |
| RunProperties.ZeroIntervalCrashesOnFirstFrame | main.py:109 | with a zero interval the program ends in the first frame, after that frame's session events |
| RunProperties.RebaselineSchedule | main.py:109-112 | the k-th frame re-baselines exactly when k is a multiple of the interval: frames 0, N, 2N, ... |
| RunProperties.RebaselineNeverTouchesSession | main.py:108-112 | runs with any two non-zero intervals and any initial counter end in the same session state and make the same session events |
| ClipNames.ClipNamesIncrease | main.py:88-101 | with a cooldown of at least 1 s, a positive threshold and a clock that does not go back, no two clips of a run get the same name |
| ClipNames.ZeroCooldownReusesClipName | main.py:91-92 | with a zero cooldown, a clip stopped and restarted within one second reuses the first clip's name |
| Startup.RemoteUploadEnabled | main.py:35 | `enable_remote_upload`: false without a connection whatever the directory check would say; with one, true exactly when the remote directory check passes |
| Startup.StartupConfigAsWritten | main.py:105-106 | as written, a finished clip is uploaded whenever the SSH connection, and so an SCP client, exists |
| Startup.AsWrittenUploadsAfterWarning | main.py:35-39 | as written, after the warning that remote upload is disabled, a finished clip is still uploaded |
| Startup.StartupConfig | main.py:35-39 | corrected: upload is enabled only with a connection and a passed remote directory check |
| Startup.NoUploadAfterWarning | main.py:35-39 | corrected: once the warning has been printed, the program never uploads |
| Scenarios.FifthMotionFrameStartsOnce | main.py:82-97 | under the default configuration (threshold 5), the fifth motion frame starts the only clip and the sixth only writes |
| Scenarios.CooldownStopsOnce | main.py:85-106 | with cooldown 2 s, a 2 s quiet gap keeps recording; the first quiet frame after more than 2 s stops it once and uploads it |
| Scenarios.GraceFrameKeepsCount | main.py:82-96 | a quiet frame inside the cooldown keeps the count, so four, one quiet and one more motion frames start a clip |
| Scenarios.SlowFramesResetCount | main.py:82-96 | frames 3 s apart: the quiet frame resets the count, and the four motion frames after it start nothing |
| Controller.SessionController.constructor | main.py:53-57 | the loop variables start in the initial state with an empty log |
| Controller.SessionController.Tick | main.py:82-112 | one in-place iteration produces `Step`'s state, action, flags and events |
| Controller.SessionController.CountFrame | main.py:82-86 | the in-place counter update is `CountMotion` |
| Controller.SessionController.DecideFrame | main.py:88-106 | the in-place start/write/stop decision is `Decide`, with its events appended to the log |
| Controller.SessionController.RebaseFrame | main.py:109-112 | the in-place re-baseline and counter update is `Rebase` |
| Controller.SessionController.Shutdown | main.py:127-128 | the in-place clean-up appends `Cleanup`'s events |
| Controller.SessionController.RunLoop | main.py:69-128 | the loop over the frames is `Run`, followed by the clean-up unless it crashed |
| Controller.SessionController.RunFrames | main.py:69-112 | the in-place loop, until the frames run out or a frame crashes, ends in `Run`'s state with `Run`'s events in the log |
| Controller.SessionController.Frame | main.py:69-112 | one loop iteration after a run without a crash extends that run by `Step`, as `Run` does |

## Findings

| source | as written | input that shows it | evidently intended | confidence | as-written member | corrected member |
|---|---|---|---|---|---|---|
| main.py:105-106 | `enable_remote_upload` is computed at line 35 and a warning at line 39 says remote upload will be disabled, but the upload at line 105 tests only `scpClient` | SSH connects, the remote directory check raises (returns False), then one clip is recorded and stopped | no upload when the remote directory check failed | not executed; medium, since the printed warning states the intent | Startup.AsWrittenUploadsAfterWarning | Startup.NoUploadAfterWarning |

`Controller` and the `Recorder` functions take the upload decision as a
configuration flag, and the `Controller` constructor accepts any `Config`.
The program as written sets that flag as `Startup.StartupConfigAsWritten`
does: an uploader exists whenever SSH connected. `Startup.StartupConfig` is
the corrected gate that the warning at main.py:39 describes.

## Left out

- OpenCV is left out: camera capture and its settings, grayscale conversion,
  MOG2 background subtraction, contours and their areas (main.py:44-51,
  59-66, 74-80). These are foreign library calls. The per-frame motion
  boolean is an input, and a re-baseline is only an event.
- The warm-up loop at main.py:59-67 is left out. It feeds frames to the
  classifier only and changes no loop variable.
- Display and the quit key are left out (main.py:114-123, 133-134). The
  end of the input sequence stands for both a failed camera read and the
  quit key.
- Reading configuration from the environment is left out (main.py:13-25).
  The constants are parameters.
- Local directory creation (main.py:41-42) is left out. It is file system I/O.
- SSH connection setup, the remote directory check (utils/ssh_connection.py,
  utils/remote_actions.py:9-20) and the threaded SCP upload
  (utils/remote_actions.py:22-45) are left out. These are network I/O and a
  fire-and-forget thread. Their outcome is a boolean input to `Startup`, and
  an upload is the `Upload(p)` event. The remote path computed from the clip
  path is not modelled. The root-level `async_upload.py` and
  `ssh_connection.py` are unused duplicates.
- Closing the SCP client and the SSH session on exit (main.py:129-132) is
  left out.
- Floating-point time and `strftime` formatting are left out. Time is integer
  milliseconds, read once per frame. The source reads `time()` at lines 84,
  86 and 98, and `time()` is a wall clock that can step back. A line-98
  reading no earlier than the line-86 one changes nothing: if the cooldown
  has not elapsed at line 86, a recording clip keeps its count at the
  threshold and line 98 is not reached. If the clock steps back between lines
  86 and 98, a quiet frame can reset the count to 0 at line 86 and then fail
  the stop test at line 98. The clip then stays open below the threshold and
  no frame is written to it. The single reading rules this out, and
  `RunKeepsRecordingPersistent` and `RecordingFrameIsWrittenOrStops` rely on
  it. Local time can repeat at a daylight-saving change, which
  the abstract clip name does not capture.
- Recorder.ClipPathAt: the name is a function of the second only. How the
  second is formatted, and how `path.join` handles separators, are not
  modelled.
- Exceptions other than the modulo by zero are left out. These include a
  failing `VideoWriter` and the faults of the upload thread, which are caught
  and logged there.
