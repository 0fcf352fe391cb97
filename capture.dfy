/**
 * Capture bookkeeping: the recorder, the file it writes and the start time.
 * The clock, the UUID, the date, and whether the platform recorder starts
 * or stops cleanly are inputs.
 */
module Capture {
  import opened Util
  import opened AudioRecordings
  import opened RecordingRepository

  /** A started platform recorder, writing to `outputPath`. */
  datatype Recorder = Recorder(outputPath: string)

  /** The service's three fields as one value. */
  datatype CaptureState = CaptureState(
    mediaRecorder: Option<Recorder>,
    recordingFile: Option<AudioFile>,
    recordingStartTime: int
  )

  /** What `cleanup` leaves behind. */
  const Reset: CaptureState := CaptureState(None, None, 0)

  /** The extension of capture files. */
  const CaptureExtension: string := "m4a"

  /** Without a recorder everything is reset; a recorder writes to the recorded file. */
  predicate Consistent(s: CaptureState) {
    && (s.mediaRecorder.None? ==> s == Reset)
    && (s.mediaRecorder.Some? ==>
          s.recordingFile.Some? && s.mediaRecorder.value.outputPath == s.recordingFile.value.AbsolutePath())
  }

  /** `startRecording` with a fresh `file`: a recorder that starts records from `now`; a failure resets. */
  function AfterStart(file: AudioFile, now: int, deviceOk: bool): CaptureState {
    if deviceOk then CaptureState(Some(Recorder(file.AbsolutePath())), Some(file), now) else Reset
  }

  /** The record `stopRecording` returns, or none. */
  function StopResult(s: CaptureState, now: int, uuid: string, date: int, stopOk: bool): Option<AudioRecording> {
    if s.mediaRecorder.None? || s.recordingFile.None? || !stopOk then None
    else
      var file := s.recordingFile.value;
      Some(AudioRecording(uuid, file.name, file.AbsolutePath(), now - s.recordingStartTime, date, "", false))
  }

  /** The state after `stopRecording`: unchanged on the early null returns, reset otherwise. */
  function AfterStop(s: CaptureState): CaptureState {
    if s.mediaRecorder.None? || s.recordingFile.None? then s else Reset
  }

  /** `cancelRecording` succeeds unless the recorder fails to stop. */
  predicate CancelSucceeds(s: CaptureState, stopOk: bool) {
    s.mediaRecorder.None? || stopOk
  }

  /** `getRecordingDuration` at `now`. */
  function DurationAt(s: CaptureState, now: int): int {
    if s.recordingStartTime > 0 then now - s.recordingStartTime else 0
  }

  /** `isRecording`. */
  predicate Recording(s: CaptureState) {
    s.mediaRecorder.Some? && s.recordingStartTime > 0
  }

  class AudioRecordingService {
    var mediaRecorder: Option<Recorder>
    var recordingFile: Option<AudioFile>
    var recordingStartTime: int
    /** Where files are named; its audio directory is the set of files on disk. */
    const repository: AudioRecordingRepository
    /** Recorders built and not yet released. */
    ghost var liveRecorders: nat

    function State(): CaptureState
      reads this
    {
      CaptureState(mediaRecorder, recordingFile, recordingStartTime)
    }

    ghost predicate Valid()
      reads this
    {
      && Consistent(State())
      && (mediaRecorder.Some? ==> liveRecorders >= 1)
    }

    constructor (repository: AudioRecordingRepository)
      ensures Valid() && State() == Reset && liveRecorders == 0
      ensures this.repository == repository
    {
      mediaRecorder := None;
      recordingFile := None;
      recordingStartTime := 0;
      this.repository := repository;
      liveRecorders := 0;
    }

    /**
     * `startRecording`: name an m4a file from the clock, build a recorder
     * and start it. A recorder already held is overwritten without being
     * released; on failure `cleanup` releases that old one instead, while
     * the recorder that failed is never released.
     */
    method StartRecording(timestamp: int, now: int, deviceOk: bool) returns (ok: bool)
      requires Valid()
      modifies this, repository`audioFiles
      ensures Valid()
      ensures var file := repository.CreateUniqueAudioFile(timestamp, CaptureExtension);
        && ok == deviceOk
        && State() == AfterStart(file, now, deviceOk)
        && repository.audioFiles == (if ok then old(repository.audioFiles) + {file.AbsolutePath()}
                                     else old(repository.audioFiles))
        && liveRecorders == old(liveRecorders) + 1 - (if !ok && old(mediaRecorder).Some? then 1 else 0)
    {
      recordingFile := Some(repository.CreateUniqueAudioFile(timestamp, CaptureExtension));
      liveRecorders := liveRecorders + 1;
      if !deviceOk {
        Cleanup();
        return false;
      }
      var path := recordingFile.value.AbsolutePath();
      repository.audioFiles := repository.audioFiles + {path};
      mediaRecorder := Some(Recorder(path));
      recordingStartTime := now;
      ok := true;
    }

    /**
     * `stopRecording`: without a recorder or a file, return none and touch
     * nothing; otherwise stop and release, build the record, and reset.
     */
    method StopRecording(now: int, uuid: string, date: int, stopOk: bool) returns (r: Option<AudioRecording>)
      requires Valid()
      modifies this
      ensures Valid()
      ensures r == StopResult(old(State()), now, uuid, date, stopOk)
      ensures State() == AfterStop(old(State()))
      ensures liveRecorders == old(liveRecorders) - (if old(mediaRecorder).Some? then 1 else 0)
    {
      if mediaRecorder.None? || recordingFile.None? {
        return None;
      }
      var file := recordingFile.value;
      if !stopOk {
        Cleanup();
        return None;
      }
      liveRecorders := liveRecorders - 1;
      mediaRecorder := None;
      var duration := now - recordingStartTime;
      r := Some(AudioRecording(uuid, file.name, file.AbsolutePath(), duration, date, "", false));
      Cleanup();
    }

    /**
     * `cancelRecording`: stop and release the recorder, delete the file,
     * reset. When the recorder fails to stop the file stays on disk; so it does
     * when `File.delete()` returns false (`deletes`), a result the source ignores.
     */
    method CancelRecording(stopOk: bool, deletes: bool) returns (ok: bool)
      requires Valid()
      modifies this, repository`audioFiles
      ensures Valid() && State() == Reset
      ensures ok == CancelSucceeds(old(State()), stopOk)
      ensures repository.audioFiles
           == if ok && deletes && old(recordingFile).Some? then old(repository.audioFiles) - {old(recordingFile).value.AbsolutePath()}
              else old(repository.audioFiles)
      ensures liveRecorders == old(liveRecorders) - (if old(mediaRecorder).Some? then 1 else 0)
    {
      if mediaRecorder.Some? && !stopOk {
        Cleanup();
        return false;
      }
      if mediaRecorder.Some? {
        liveRecorders := liveRecorders - 1;
        mediaRecorder := None;
      }
      if recordingFile.Some? {
        var path := recordingFile.value.AbsolutePath();
        if path in repository.audioFiles && deletes {
          repository.audioFiles := repository.audioFiles - {path};
        }
      }
      Cleanup();
      ok := true;
    }

    function GetRecordingDuration(now: int): (d: int)
      reads this
      ensures recordingStartTime <= 0 ==> d == 0
      ensures recordingStartTime > 0 ==> recordingStartTime + d == now
    {
      DurationAt(State(), now)
    }

    function IsRecording(): (b: bool)
      reads this
      ensures b <==> mediaRecorder.Some? && recordingStartTime > 0
    {
      Recording(State())
    }

    /** `cleanup`: release any recorder and reset the fields. */
    method Cleanup()
      requires mediaRecorder.Some? ==> liveRecorders >= 1
      modifies this
      ensures Valid() && State() == Reset
      ensures liveRecorders == old(liveRecorders) - (if old(mediaRecorder).Some? then 1 else 0)
    {
      if mediaRecorder.Some? {
        liveRecorders := liveRecorders - 1;
      }
      mediaRecorder := None;
      recordingFile := None;
      recordingStartTime := 0;
    }

    method Release()
      requires Valid()
      modifies this
      ensures Valid() && State() == Reset
      ensures liveRecorders == old(liveRecorders) - (if old(mediaRecorder).Some? then 1 else 0)
    {
      Cleanup();
    }
  }

  /**
   * A capture started at `start` and stopped at `stop` yields a record
   * naming the started file, lasting `stop - start`, untranscribed, and
   * leaves the service reset.
   */
  lemma StartThenStop(file: AudioFile, start: int, stop: int, uuid: string, date: int)
    ensures var s := AfterStart(file, start, true);
      && StopResult(s, stop, uuid, date, true)
         == Some(AudioRecording(uuid, file.name, file.AbsolutePath(), stop - start, date, "", false))
      && AfterStop(s) == Reset
  {
  }

  /** A started capture reports recording exactly when the clock read positive, and then its elapsed time. */
  lemma StartedCaptureIsRecording(file: AudioFile, start: int, now: int)
    ensures Recording(AfterStart(file, start, true)) <==> start > 0
    ensures start > 0 ==> DurationAt(AfterStart(file, start, true), now) == now - start
    ensures !Recording(AfterStart(file, start, false)) && DurationAt(AfterStart(file, start, false), now) == 0
  {
  }

  /** In a consistent state a stop returns a record exactly when a recorder exists and stops cleanly. */
  lemma StopReturnsRecordIff(s: CaptureState, now: int, uuid: string, date: int, stopOk: bool)
    requires Consistent(s)
    ensures StopResult(s, now, uuid, date, stopOk).Some? <==> s.mediaRecorder.Some? && stopOk
    ensures s.mediaRecorder.None? ==> AfterStop(s) == s == Reset
  {
  }

  /** Capture files are named `recording_<timestamp>.m4a` in the repository's audio directory. */
  lemma CaptureFileIsM4a(repository: AudioRecordingRepository, timestamp: int)
    ensures var f := repository.CreateUniqueAudioFile(timestamp, CaptureExtension);
      f.dir == repository.audioDir && f.name[|f.name| - 4..] == ".m4a"
  {
  }
}
