/** What the start-up code decides about remote upload, before the first
    frame. A failed SSH connection leaves no SCP client. A successful one
    whose remote directory check fails leaves an SCP client, and the program
    warns that remote upload is disabled; as written it still uploads every
    finished clip, because the upload tests only the SCP client.
    `StartupConfigAsWritten` is the gate the program has, `StartupConfig`
    the gate its warning describes. */
module Startup {
  import opened Recorder
  import opened RunProperties
  import opened WriterProtocol

  /** Remote upload is enabled when the connection succeeded and the remote
      directory check passed; the warning is printed otherwise. The check
      runs only on a connection, so without one its outcome does not matter. */
  function RemoteUploadEnabled(sshConnected: bool, remoteDirChecked: bool): (enabled: bool)
    ensures !sshConnected ==> !enabled
    ensures sshConnected ==> (enabled <==> remoteDirChecked)
  {
    sshConnected && remoteDirChecked
  }

  /** The configuration the loop runs with as the program is written: a
      finished clip is uploaded whenever an SCP client exists, which is
      whenever the connection succeeded. */
  function StartupConfigAsWritten(cooldownTime: int, motionPersistence: int, updateFrameInterval: int,
                                  localWriteDir: string, sshConnected: bool, remoteDirChecked: bool): (cfg: Config)
    ensures cfg.uploadEnabled <==> sshConnected
    ensures cfg.(uploadEnabled := false) == Config(cooldownTime, motionPersistence, updateFrameInterval, localWriteDir, false)
  {
    Config(cooldownTime, motionPersistence, updateFrameInterval, localWriteDir, sshConnected)
  }

  /** As written, a program that has warned that remote upload is disabled
      still uploads the first clip it finishes. */
  lemma AsWrittenUploadsAfterWarning()
    ensures !RemoteUploadEnabled(true, false)
    ensures var cfg := StartupConfigAsWritten(3, 1, 100, "clips", true, false);
            var inputs := [Reading(true, 0), Reading(false, 5000)];
            Upload(ClipPath("clips", 0)) in Monitor(cfg, inputs)
  {
    var cfg := StartupConfigAsWritten(3, 1, 100, "clips", true, false);
    var inputs := [Reading(true, 0), Reading(false, 5000)];
    var t1 := Step(cfg, Initial(), inputs[0]);
    var t2 := Step(cfg, t1.next, inputs[1]);
    assert t2.events == [Release, Upload(ClipPath("clips", 0))];
    assert inputs[..0] == [];
    RunExtends(cfg, Initial(), inputs, 0);
    RunExtends(cfg, Initial(), inputs, 1);
    assert inputs[..2] == inputs;
    assert Monitor(cfg, inputs)[4] == Upload(ClipPath("clips", 0));
  }

  /** The configuration the loop runs with when the upload is gated as the
      warning says: only with an SCP client and a checked remote directory. */
  function StartupConfig(cooldownTime: int, motionPersistence: int, updateFrameInterval: int,
                         localWriteDir: string, sshConnected: bool, remoteDirChecked: bool): (cfg: Config)
    ensures cfg.uploadEnabled ==> sshConnected
    ensures cfg.uploadEnabled <==> RemoteUploadEnabled(sshConnected, remoteDirChecked)
    ensures cfg.(uploadEnabled := false) == Config(cooldownTime, motionPersistence, updateFrameInterval, localWriteDir, false)
  {
    Config(cooldownTime, motionPersistence, updateFrameInterval, localWriteDir,
           RemoteUploadEnabled(sshConnected, remoteDirChecked))
  }

  /** Once the warning has been printed, nothing is ever uploaded. */
  lemma NoUploadAfterWarning(cooldownTime: int, motionPersistence: int, updateFrameInterval: int,
                             localWriteDir: string, sshConnected: bool, remoteDirChecked: bool,
                             inputs: seq<Reading>)
    requires !RemoteUploadEnabled(sshConnected, remoteDirChecked)
    ensures var cfg := StartupConfig(cooldownTime, motionPersistence, updateFrameInterval,
                                     localWriteDir, sshConnected, remoteDirChecked);
            forall e | e in Monitor(cfg, inputs) :: !e.Upload?
  {
    var cfg := StartupConfig(cooldownTime, motionPersistence, updateFrameInterval,
                             localWriteDir, sshConnected, remoteDirChecked);
    var events := Monitor(cfg, inputs);
    forall i | 0 <= i < |events| ensures !events[i].Upload? {
      MonitorUploadsFinishedClips(cfg, inputs, i);
    }
  }
}
