/**
 * The audio recorder hook (hooks/useAudioRecorder.ts). The hook keeps two
 * React state cells, the recording status and the audio URL, and two refs,
 * the media recorder and the buffer of recorded chunks. Each callback is
 * modelled as one atomic method of a class that holds these four as
 * fields, specified by a function from the old snapshot of the fields to
 * the new one. The browser's media devices and recorder are abstracted: the
 * outcome of the asynchronous start is an input, the media recorder is
 * reduced to whether it exists and is recording, and the object URL made
 * from the chunks is an input of the stop event.
 */
module AudioRecorder {
  import opened Wrappers

  /** The `RecordingStatus` union type. */
  datatype RecordingStatus = Inactive | Recording | Stopped

  /** A chunk of encoded audio; only its size is inspected. */
  datatype Blob = Blob(bytes: seq<bv8>) {
    function Size(): nat { |bytes| }
  }

  /** `mediaRecorderRef.current`: no recorder yet, or a recorder whose
      state is or is not 'recording'. */
  datatype RecorderRef = NoRecorder | Attached(isRecording: bool) {
    predicate IsRecording() { Attached? && isRecording }
  }

  /** How the asynchronous body of `startRecording` ends. */
  datatype StartOutcome =
    | DeviceUnavailable    // getUserMedia rejects: nothing has been reset yet
    | RecorderRejected     // the MediaRecorder constructor throws after the reset
    | RecorderStartFailed  // mediaRecorder.start() throws after the new recorder is stored
    | Started              // the new recorder is recording

  /** The hook's four pieces of state at one instant. */
  datatype Snapshot = Snapshot(
    status: RecordingStatus,
    audioUrl: Option<string>,
    recorder: RecorderRef,
    chunks: seq<Blob>)

  const InitialSnapshot := Snapshot(Inactive, None, NoRecorder, [])

  /** What every reachable snapshot satisfies: a media recorder only
      records while the status says so, and the buffer holds only chunks
      with data. */
  predicate Consistent(s: Snapshot) {
    && (s.recorder.IsRecording() ==> s.status == Recording)
    && forall i :: 0 <= i < |s.chunks| ==> s.chunks[i].Size() > 0
  }

  /** `startRecording`: ignored while recording; otherwise the outcome of
      the device request and of creating and starting the recorder decides
      how far the reset of status, URL and buffer gets before a failure
      sets the status back to inactive. */
  function AfterStart(s: Snapshot, outcome: StartOutcome): Snapshot {
    if s.status == Recording then s
    else match outcome
      case DeviceUnavailable => s.(status := Inactive)
      case RecorderRejected => Snapshot(Inactive, None, s.recorder, [])
      case RecorderStartFailed => Snapshot(Inactive, None, Attached(false), [])
      case Started => Snapshot(Recording, None, Attached(true), [])
  }

  /** `mediaRecorder.onstop`: the object URL made from the chunks is
      published and the status becomes stopped. */
  function AfterStopEvent(s: Snapshot, url: string): Snapshot {
    s.(audioUrl := Some(url), status := Stopped)
  }

  /** What `stopRecording` does to the recorder: a recorder that is
      recording stops; otherwise nothing happens. */
  function StopCommand(r: RecorderRef): (r': RecorderRef)
    ensures !r'.IsRecording()
    ensures r'.Attached? == r.Attached?
    ensures r.IsRecording() || r' == r
  {
    if r.IsRecording() then Attached(false) else r
  }

  /** `ondataavailable`: a chunk is kept only when it holds data. */
  function AppendChunk(chunks: seq<Blob>, chunk: Blob): (r: seq<Blob>)
    ensures chunk.Size() > 0 ==> |r| == |chunks| + 1 && r[|chunks|] == chunk
    ensures chunk.Size() == 0 ==> r == chunks
    ensures |r| >= |chunks| && r[..|chunks|] == chunks
  {
    if chunk.Size() > 0 then chunks + [chunk] else chunks
  }

  /** A start while recording changes nothing; a failed device request
      only sets the status to inactive; the other outcomes empty the
      buffer and clear the URL, and only success leaves the status
      recording. */
  lemma StartEffects(s: Snapshot, outcome: StartOutcome)
    ensures s.status == Recording ==> AfterStart(s, outcome) == s
    ensures var s' := AfterStart(s, outcome);
      s.status != Recording ==>
        && (s'.status == Recording <==> outcome == Started)
        && (s'.status == Inactive <==> outcome != Started)
        && (outcome == DeviceUnavailable ==>
              s'.audioUrl == s.audioUrl && s'.chunks == s.chunks && s'.recorder == s.recorder)
        && (outcome != DeviceUnavailable ==> s'.audioUrl == None && s'.chunks == [])
        && (Consistent(s) ==> (s'.recorder.IsRecording() <==> outcome == Started))
  {
  }

  /** Every handler keeps a consistent snapshot consistent. */
  lemma HandlersKeepConsistent(s: Snapshot, outcome: StartOutcome, chunk: Blob, url: string)
    requires Consistent(s)
    ensures Consistent(AfterStart(s, outcome))
    ensures Consistent(s.(chunks := AppendChunk(s.chunks, chunk)))
    ensures Consistent(s.(recorder := StopCommand(s.recorder)))
    ensures !s.recorder.IsRecording() ==> Consistent(AfterStopEvent(s, url))
  {
  }

  /** Stopping twice is stopping once, so repeated stop commands are
      harmless. */
  lemma StopCommandIdempotent(r: RecorderRef)
    ensures StopCommand(StopCommand(r)) == StopCommand(r)
  {
  }

  class AudioRecorderHook {
    var status: RecordingStatus
    var audioUrl: Option<string>
    var recorder: RecorderRef
    var chunks: seq<Blob>

    function State(): Snapshot
      reads this
    {
      Snapshot(status, audioUrl, recorder, chunks)
    }

    ghost predicate Valid()
      reads this
    {
      Consistent(State())
    }

    /** The hook's initial state. */
    constructor ()
      ensures Valid() && State() == InitialSnapshot
    {
      status := Inactive;
      audioUrl := None;
      recorder := NoRecorder;
      chunks := [];
    }

    /** `startRecording`, run to the end of its asynchronous body. */
    method StartRecording(outcome: StartOutcome)
      requires Valid()
      modifies this
      ensures Valid()
      ensures State() == AfterStart(old(State()), outcome)
    {
      if status == Recording {
        return;
      }
      if outcome == DeviceUnavailable {
        status := Inactive;
        return;
      }
      status := Recording;
      audioUrl := None;
      chunks := [];
      if outcome == RecorderRejected {
        status := Inactive;
        return;
      }
      recorder := Attached(false);
      if outcome == RecorderStartFailed {
        status := Inactive;
        return;
      }
      recorder := Attached(true);
    }

    /** `mediaRecorder.ondataavailable`: existing chunks keep their order
        and are not changed. */
    method OnDataAvailable(chunk: Blob)
      requires Valid()
      modifies this`chunks
      ensures Valid()
      ensures chunks == AppendChunk(old(chunks), chunk)
    {
      if chunk.Size() > 0 {
        chunks := chunks + [chunk];
      }
    }

    /** `mediaRecorder.onstop`, with `url` the object URL made from the
        chunks. The browser fires it only once the recorder has left the
        recording state, and an object URL is never the empty string. */
    method OnStop(url: string)
      requires Valid() && recorder.Attached? && !recorder.isRecording
      requires url != []
      modifies this`audioUrl, this`status
      ensures Valid()
      ensures State() == AfterStopEvent(old(State()), url)
    {
      audioUrl := Some(url);
      status := Stopped;
    }

    /** `stopRecording`: `stopped` tells whether the recorder was told to
        stop. */
    method StopRecording() returns (stopped: bool)
      requires Valid()
      modifies this`recorder
      ensures Valid()
      ensures stopped <==> old(recorder).IsRecording()
      ensures recorder == StopCommand(old(recorder))
    {
      stopped := recorder.IsRecording();
      if stopped {
        recorder := Attached(false);
      }
    }
  }
}
