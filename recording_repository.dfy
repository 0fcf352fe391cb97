/**
 * The recordings store: a JSON list of recordings in one file, an audio
 * directory, and one `<id>.txt` transcript file per recording. Every
 * operation reads the whole list, edits it, and writes it back.
 */
module RecordingRepository {
  import opened Util
  import opened AudioRecordings
  import Decimal

  /** `recordings.json` as stored: a list Gson can read back, or text it cannot. */
  datatype CatalogFile = Json(recordings: seq<AudioRecording>) | Unparsable

  /** A file in the audio directory: `File(audioDir, name)`. */
  datatype AudioFile = AudioFile(dir: string, name: string) {
    function AbsolutePath(): string { dir + "/" + name }
  }

  /** `getAllRecordings`: a missing file or one that does not parse reads as the empty list. */
  function ListIn(file: Option<CatalogFile>): (r: seq<AudioRecording>)
    ensures file.None? || file.value.Unparsable? ==> r == []
    ensures file.Some? && file.value.Json? ==> r == file.value.recordings
  {
    match file
    case Some(Json(list)) => list
    case _ => []
  }

  /** `indexOfFirst { it.id == id }`: the first position holding that id, or -1. */
  function IndexOfId(s: seq<AudioRecording>, id: string): (r: int)
    ensures -1 <= r < |s|
    ensures r == -1 <==> forall i :: 0 <= i < |s| ==> s[i].id != id
    ensures r >= 0 ==> s[r].id == id && forall j :: 0 <= j < r ==> s[j].id != id
  {
    if s == [] then -1
    else if s[0].id == id then 0
    else
      var k := IndexOfId(s[1..], id);
      if k == -1 then -1 else k + 1
  }

  /** `find { it.id == id }`: the first entry with that id. */
  function FindById(s: seq<AudioRecording>, id: string): (r: Option<AudioRecording>)
    ensures r.None? <==> forall x :: x in s ==> x.id != id
    ensures r.Some? ==> r.value.id == id && r.value in s
    ensures r.Some? ==> r.value == s[IndexOfId(s, id)]
  {
    var i := IndexOfId(s, id);
    if i == -1 then None else Some(s[i])
  }

  /** `removeAll { it.id == id }`: keep the others, in order. */
  function RemoveAllById(s: seq<AudioRecording>, id: string): (r: seq<AudioRecording>)
    ensures forall x :: x in r <==> x in s && x.id != id
    ensures |r| <= |s|
  {
    if s == [] then []
    else if s[0].id == id then RemoveAllById(s[1..], id)
    else [s[0]] + RemoveAllById(s[1..], id)
  }

  /** How many entries carry the id. */
  function CountId(s: seq<AudioRecording>, id: string): nat {
    if s == [] then 0 else (if s[0].id == id then 1 else 0) + CountId(s[1..], id)
  }

  /**
   * The name `createUniqueAudioFile` gives a file made at `timestamp`: it
   * splits back into the prefix, the timestamp digits and the extension.
   */
  function UniqueName(timestamp: int, extension: string): (name: string)
    ensures var digits := Decimal.FormatInt(timestamp, 0);
      && |name| == 11 + |digits| + |extension|
      && name[..10] == "recording_" && name[10..10 + |digits|] == digits
      && name[10 + |digits|..] == "." + extension
  {
    var digits := Decimal.FormatInt(timestamp, 0);
    assert "recording_" + digits + "." + extension == "recording_" + (digits + ("." + extension));
    "recording_" + digits + "." + extension
  }

  class AudioRecordingRepository {
    /** The directory holding audio files. */
    const audioDir: string
    /** `recordings.json`, absent until the first write. */
    var recordingsFile: Option<CatalogFile>
    /** The transcript directory: recording id to the text of `<id>.txt`. */
    var transcripts: map<string, string>
    /** Paths of the audio files that exist. */
    var audioFiles: set<string>

    constructor (audioDir: string, recordingsFile: Option<CatalogFile>,
                 transcripts: map<string, string>, audioFiles: set<string>)
      ensures this.audioDir == audioDir && this.recordingsFile == recordingsFile
      ensures this.transcripts == transcripts && this.audioFiles == audioFiles
    {
      this.audioDir := audioDir;
      this.recordingsFile := recordingsFile;
      this.transcripts := transcripts;
      this.audioFiles := audioFiles;
    }

    function GetAllRecordings(): (r: seq<AudioRecording>)
      reads this
      ensures recordingsFile.None? ==> r == []
    {
      ListIn(recordingsFile)
    }

    /** `getRecordingById`: the first recording with that id, or none. */
    function GetRecordingById(id: string): (r: Option<AudioRecording>)
      reads this
      ensures r.None? <==> forall x :: x in GetAllRecordings() ==> x.id != id
      ensures r.Some? ==> r.value.id == id && r.value in GetAllRecordings()
      ensures r.Some? ==> r.value == GetAllRecordings()[IndexOfId(GetAllRecordings(), id)]
    {
      FindById(GetAllRecordings(), id)
    }

    /** `saveRecording`: append, then write the transcript file only when there is a transcript. */
    method SaveRecording(recording: AudioRecording)
      modifies this
      ensures recordingsFile == Some(Json(old(GetAllRecordings()) + [recording]))
      ensures transcripts == if recording.transcription != "" then old(transcripts)[recording.id := recording.transcription]
                             else old(transcripts)
      ensures audioFiles == old(audioFiles)
    {
      var recordings := GetAllRecordings();
      recordings := recordings + [recording];
      recordingsFile := Some(Json(recordings));
      if |recording.transcription| > 0 {
        transcripts := transcripts[recording.id := recording.transcription];
      }
    }

    /**
     * `updateRecording`: replace the first entry with the same id; when there
     * is none, write nothing at all.
     */
    method UpdateRecording(recording: AudioRecording)
      modifies this
      ensures var all := old(GetAllRecordings()); var index := IndexOfId(all, recording.id);
        && (index == -1 ==> recordingsFile == old(recordingsFile) && transcripts == old(transcripts))
        && (index != -1 ==>
              && recordingsFile == Some(Json(all[index := recording]))
              && transcripts == if recording.transcription != "" then old(transcripts)[recording.id := recording.transcription]
                                else old(transcripts))
      ensures audioFiles == old(audioFiles)
    {
      var recordings := GetAllRecordings();
      var index := IndexOfId(recordings, recording.id);
      if index != -1 {
        recordings := recordings[index := recording];
        recordingsFile := Some(Json(recordings));
        if |recording.transcription| > 0 {
          transcripts := transcripts[recording.id := recording.transcription];
        }
      }
    }

    /**
     * `deleteRecording`: delete the audio file of the first entry with that id
     * and the `<id>.txt` transcript, then drop every entry with that id.
     * `File.delete()` reports failure by its result, which the source ignores:
     * `audioDeletes` and `transcriptDeletes` are those results, and a failed
     * delete leaves its file in place while the list still loses the entries.
     */
    method DeleteRecording(id: string, audioDeletes: bool, transcriptDeletes: bool)
      modifies this
      ensures var all := old(GetAllRecordings()); var found := FindById(all, id);
        && (found.None? ==> recordingsFile == old(recordingsFile) && transcripts == old(transcripts)
                            && audioFiles == old(audioFiles))
        && (found.Some? ==>
              && recordingsFile == Some(Json(RemoveAllById(all, id)))
              && transcripts == (if transcriptDeletes then old(transcripts) - {id} else old(transcripts))
              && audioFiles == (if audioDeletes then old(audioFiles) - {found.value.filePath} else old(audioFiles)))
    {
      var recordings := GetAllRecordings();
      var recording := FindById(recordings, id);
      if recording.Some? {
        if recording.value.filePath in audioFiles && audioDeletes {
          audioFiles := audioFiles - {recording.value.filePath};
        }
        if id in transcripts && transcriptDeletes {
          transcripts := transcripts - {id};
        }
        recordings := RemoveAllById(recordings, id);
        recordingsFile := Some(Json(recordings));
      }
    }

    /** `getTranscriptFromFile`: the text of `<id>.txt`, or none when there is no such file. */
    function GetTranscriptFromFile(recordingId: string): (r: Option<string>)
      reads this
      ensures r.Some? <==> recordingId in transcripts
      ensures r.Some? ==> r.value == transcripts[recordingId]
    {
      if recordingId in transcripts then Some(transcripts[recordingId]) else None
    }

    /** `createUniqueAudioFile`: the clock reading is a parameter; "wav" is the default extension. */
    function CreateUniqueAudioFile(timestamp: int, extension: string := "wav"): (f: AudioFile)
      ensures f.dir == audioDir
      ensures var digits := Decimal.FormatInt(timestamp, 0);
        |f.name| == 11 + |digits| + |extension|
        && f.name[..10] == "recording_" && f.name[10..10 + |digits|] == digits
        && f.name[10 + |digits|..] == "." + extension
    {
      AudioFile(audioDir, UniqueName(timestamp, extension))
    }
  }

  /** Saving appends: the list grows by one and everything before stays. */
  lemma SaveAppends(s: seq<AudioRecording>, recording: AudioRecording)
    ensures var t := s + [recording];
      |t| == |s| + 1 && t[..|s|] == s && t[|s|] == recording
  {
  }

  /**
   * Saving does not check for duplicates: a lookup by the new id still finds
   * the older entry when one with that id was already saved.
   */
  lemma {:induction false} SaveThenFind(s: seq<AudioRecording>, recording: AudioRecording, id: string)
    ensures FindById(s + [recording], id)
         == if FindById(s, id).Some? then FindById(s, id)
            else if recording.id == id then Some(recording) else None
  {
    IndexAppend(s, recording, id);
  }

  lemma {:induction false} IndexAppend(s: seq<AudioRecording>, recording: AudioRecording, id: string)
    ensures IndexOfId(s + [recording], id)
         == if IndexOfId(s, id) != -1 then IndexOfId(s, id)
            else if recording.id == id then |s| else -1
  {
    if s != [] {
      assert (s + [recording])[1..] == s[1..] + [recording];
      IndexAppend(s[1..], recording, id);
    }
  }

  /**
   * After an update of a present id, a lookup of that id yields the new
   * record, lookups of every other id are unchanged, and the length stays.
   */
  lemma UpdateThenFind(s: seq<AudioRecording>, recording: AudioRecording, other: string)
    requires IndexOfId(s, recording.id) != -1
    ensures var t := s[IndexOfId(s, recording.id) := recording];
      && |t| == |s|
      && FindById(t, recording.id) == Some(recording)
      && (other != recording.id ==> FindById(t, other) == FindById(s, other))
  {
    var i := IndexOfId(s, recording.id);
    var t := s[i := recording];
    IndexAfterUpdate(s, i, recording, recording.id);
    if other != recording.id {
      IndexAfterUpdate(s, i, recording, other);
    }
  }

  lemma {:induction false} IndexAfterUpdate(s: seq<AudioRecording>, i: nat, recording: AudioRecording, id: string)
    requires i < |s| && s[i].id == recording.id && i == IndexOfId(s, recording.id)
    ensures id == recording.id ==> IndexOfId(s[i := recording], id) == i
    ensures id != recording.id ==> IndexOfId(s[i := recording], id) == IndexOfId(s, id)
  {
    var t := s[i := recording];
    if i > 0 {
      assert t[1..] == s[1..][i - 1 := recording];
      IndexAfterUpdate(s[1..], i - 1, recording, id);
    }
  }

  /** After a delete no entry has that id, and exactly the entries with that id are gone. */
  lemma {:induction false} DeleteRemovesId(s: seq<AudioRecording>, id: string)
    ensures FindById(RemoveAllById(s, id), id).None?
    ensures |RemoveAllById(s, id)| + CountId(s, id) == |s|
  {
    if s != [] {
      DeleteRemovesId(s[1..], id);
    }
  }

  /** A lookup checks the head, then the rest. */
  lemma FindByIdUnfold(s: seq<AudioRecording>, id: string)
    requires s != []
    ensures FindById(s, id) == if s[0].id == id then Some(s[0]) else FindById(s[1..], id)
  {
    assert IndexOfId(s, id) == if s[0].id == id then 0
                               else if IndexOfId(s[1..], id) == -1 then -1 else IndexOfId(s[1..], id) + 1;
  }

  /** A delete leaves the lookup of every other id as it was. */
  lemma {:induction false} DeleteKeepsOthers(s: seq<AudioRecording>, id: string, other: string)
    requires other != id
    ensures FindById(RemoveAllById(s, id), other) == FindById(s, other)
  {
    if s != [] {
      DeleteKeepsOthers(s[1..], id, other);
      FindByIdUnfold(s, other);
      if s[0].id != id {
        var t := [s[0]] + RemoveAllById(s[1..], id);
        assert t[0] == s[0] && t[1..] == RemoveAllById(s[1..], id);
        FindByIdUnfold(t, other);
      }
    }
  }

  /** `removeAll` filters piecewise: what it keeps of a concatenation is what it keeps of each part, in order. */
  lemma {:induction false} RemoveAllDistributes(s: seq<AudioRecording>, t: seq<AudioRecording>, id: string)
    ensures RemoveAllById(s + t, id) == RemoveAllById(s, id) + RemoveAllById(t, id)
  {
    if s == [] {
      assert s + t == t;
    } else {
      var u := s + t;
      assert u[0] == s[0] && u[1..] == s[1..] + t;
      RemoveAllDistributes(s[1..], t, id);
      var a, b := RemoveAllById(s[1..], id), RemoveAllById(t, id);
      if s[0].id != id {
        assert RemoveAllById(u, id) == [s[0]] + (a + b);
        assert [s[0]] + (a + b) == ([s[0]] + a) + b;
      }
    }
  }

  /** A single entry is dropped exactly when it has the id. */
  lemma RemoveAllSingleton(x: AudioRecording, id: string)
    ensures RemoveAllById([x], id) == if x.id == id then [] else [x]
  {
  }

  /** Deleting an id that is absent leaves the list as it was. */
  lemma {:induction false} DeleteAbsentIsIdentity(s: seq<AudioRecording>, id: string)
    requires FindById(s, id).None?
    ensures RemoveAllById(s, id) == s
  {
    if s != [] {
      assert s[0] in s;
      assert forall x :: x in s[1..] ==> x in s;
      DeleteAbsentIsIdentity(s[1..], id);
      assert [s[0]] + s[1..] == s;
    }
  }

  /** Files made at different instants with one extension have different names. */
  lemma UniqueNamesPerTimestamp(t1: int, t2: int, extension: string)
    requires UniqueName(t1, extension) == UniqueName(t2, extension)
    ensures t1 == t2
  {
    var d1, d2 := Decimal.FormatInt(t1, 0), Decimal.FormatInt(t2, 0);
    assert d1 == UniqueName(t1, extension)[10..10 + |d1|];
    assert d2 == UniqueName(t2, extension)[10..10 + |d2|];
    Decimal.FormatIntInjective(t1, t2, 0);
  }
}
