/** The protocol the video writer and the uploader see. A clip is opened
    only when none is open, frames are written only into an open clip, and
    a released clip is handed to the uploader at once, exactly once and
    under its own path (when an uploader exists). Re-baselines may come at
    any point except between a release and its upload. */
module WriterProtocol {
  import opened Recorder

  datatype Phase = Idle | Recording(clip: ClipPath) | Released(clip: ClipPath)

  /** The phase after one event, or None when the event breaks the protocol. */
  function Advance(uploads: bool, ph: Phase, e: Event): Option<Phase>
  {
    match (ph, e)
    case (Idle, Open(p)) => Some(Recording(p))
    case (Idle, Rebaseline) => Some(Idle)
    case (Recording(p), Write) => Some(Recording(p))
    case (Recording(p), Rebaseline) => Some(Recording(p))
    case (Recording(p), Release) => Some(if uploads then Released(p) else Idle)
    case (Released(p), Upload(q)) => if q == p then Some(Idle) else None
    case _ => None
  }

  /** The phase after a sequence of events, or None when one breaks the protocol. */
  function Replay(uploads: bool, ph: Phase, events: seq<Event>): Option<Phase>
    decreases |events|
  {
    if events == [] then
      Some(ph)
    else
      match Advance(uploads, ph, events[0])
      case None => None
      case Some(next) => Replay(uploads, next, events[1..])
  }

  /** Replaying two pieces one after the other is replaying their concatenation. */
  lemma {:induction false} ReplayConcat(uploads: bool, ph: Phase, a: seq<Event>, b: seq<Event>)
    ensures Replay(uploads, ph, a + b) ==
            match Replay(uploads, ph, a)
            case None => None
            case Some(mid) => Replay(uploads, mid, b)
    decreases |a|
  {
    if a == [] {
      assert a + b == b;
    } else {
      assert (a + b)[0] == a[0];
      assert (a + b)[1..] == a[1..] + b;
      match Advance(uploads, ph, a[0])
      case None =>
      case Some(next) => ReplayConcat(uploads, next, a[1..], b);
    }
  }

  /** Replaying one event in front of the rest. */
  lemma ReplayCons(uploads: bool, ph: Phase, e: Event, rest: seq<Event>)
    ensures Replay(uploads, ph, [e] + rest) ==
            match Advance(uploads, ph, e)
            case None => None
            case Some(next) => Replay(uploads, next, rest)
  {
    assert ([e] + rest)[0] == e;
    assert ([e] + rest)[1..] == rest;
  }

  /** An accepted sequence, cut before its i-th event: the prefix is
      accepted, the i-th event is allowed in the phase the prefix reaches,
      and the rest leads on to the same end. */
  lemma ReplaySplit(uploads: bool, ph: Phase, events: seq<Event>, i: nat)
    requires Replay(uploads, ph, events).Some? && i < |events|
    ensures Replay(uploads, ph, events[..i]).Some?
    ensures var mid := Replay(uploads, ph, events[..i]).value;
            Advance(uploads, mid, events[i]).Some? &&
            Replay(uploads, Advance(uploads, mid, events[i]).value, events[i + 1..]) == Replay(uploads, ph, events)
  {
    assert events == events[..i] + ([events[i]] + events[i + 1..]);
    ReplayConcat(uploads, ph, events[..i], [events[i]] + events[i + 1..]);
    if Replay(uploads, ph, events[..i]).Some? {
      ReplayCons(uploads, Replay(uploads, ph, events[..i]).value, events[i], events[i + 1..]);
    }
  }

  /** A clip is opened only when none is open: sessions never nest. */
  lemma OpensOnlyWhenIdle(uploads: bool, ph: Phase, events: seq<Event>, i: nat)
    requires Replay(uploads, ph, events).Some? && i < |events| && events[i].Open?
    ensures Replay(uploads, ph, events[..i]) == Some(Idle)
    ensures Replay(uploads, ph, events[..i + 1]) == Some(Recording(events[i].path))
  {
    ReplaySplit(uploads, ph, events, i);
    assert events[..i + 1] == events[..i] + [events[i]];
    ReplayConcat(uploads, ph, events[..i], [events[i]]);
    ReplayCons(uploads, Idle, events[i], []);
  }

  /** Without an uploader nothing is ever uploaded. */
  lemma {:induction false} NoUploadWithoutUploader(ph: Phase, events: seq<Event>)
    requires Replay(false, ph, events).Some? && !ph.Released?
    ensures forall e | e in events :: !e.Upload?
    decreases |events|
  {
    if events != [] {
      var next := Advance(false, ph, events[0]).value;
      NoUploadWithoutUploader(next, events[1..]);
      assert events == [events[0]] + events[1..];
    }
  }

  /** With an uploader, every upload comes right after a release, and it
      carries the path of the clip that release closed. */
  lemma UploadFollowsItsRelease(ph: Phase, events: seq<Event>, i: nat)
    requires Replay(true, ph, events).Some? && !ph.Released? && i < |events| && events[i].Upload?
    ensures 0 < i && events[i - 1] == Release
    ensures Replay(true, ph, events[..i - 1]) == Some(Recording(events[i].path))
  {
    ReplaySplit(true, ph, events, i);
    if i > 0 {
      ReplaySplit(true, ph, events, i - 1);
      var before := Replay(true, ph, events[..i - 1]).value;
      assert events[..i] == events[..i - 1] + [events[i - 1]];
      ReplayConcat(true, ph, events[..i - 1], [events[i - 1]]);
      ReplayCons(true, before, events[i - 1], []);
    }
  }

  /** With an uploader, a release is followed at once by the upload of the
      clip it closed, unless the sequence ends in between. */
  lemma ReleaseIsFollowedByUpload(ph: Phase, events: seq<Event>, i: nat)
    requires Replay(true, ph, events).Some? && !Replay(true, ph, events).value.Released?
    requires i < |events| && events[i] == Release
    ensures i + 1 < |events| && events[i + 1].Upload?
    ensures Replay(true, ph, events[..i]) == Some(Recording(events[i + 1].path))
  {
    ReplaySplit(true, ph, events, i);
    var mid := Replay(true, ph, events[..i]).value;
    if i + 1 < |events| {
      ReplaySplit(true, ph, events, i + 1);
      assert events[..i + 1] == events[..i] + [events[i]];
      ReplayConcat(true, ph, events[..i], [events[i]]);
      ReplayCons(true, mid, events[i], []);
    }
  }

  /** The writer's phase between two frames: a clip is open exactly while recording. */
  function PhaseOf(s: State): (ph: Phase)
    requires Consistent(s)
    ensures ph.Recording? <==> s.recording
    ensures ph.Recording? ==> s.videoFilename == Some(ph.clip)
    ensures !ph.Released?
  {
    if s.recording then Recording(s.videoFilename.value) else Idle
  }
}
