/**
 * The model store: model binaries on local storage, streamed download with
 * progress, existence, deletion and storage accounting.
 *
 * The models directory is a map from file name to length. The network is an
 * input: a `Transfer` says how the HTTP call went and which chunks the body
 * delivered. The observable progress is the map from model name to its latest
 * record (last write wins); a ghost log keeps every record written, in order,
 * and a ghost counter the HTTP calls made.
 */
module ModelDownload {
  import opened Util
  import opened WhisperModels

  const ModelsDirectory: string := "whisper_models"
  /** The byte count each `source.read` asks for. */
  const BufferSize: int := 8192

  /** What one `source.read(sink.buffer, 8192)` returned, when it was not end of stream. */
  type ChunkSize = n: int | 1 <= n <= BufferSize witness 1

  /** A response body: its `Content-Length` (-1 when unknown), the chunks read, and whether reading then threw. */
  datatype Body = Body(contentLength: int, chunks: seq<ChunkSize>, streamFails: bool)

  /** How the HTTP GET went. */
  datatype Transfer =
    | CallFailed                                // `execute()` threw
    | Answered(code: int, body: Option<Body>)   // a response, with its body or `null`

  /** OkHttp's `isSuccessful`: the 2xx class of section 15.3 of RFC 9110. */
  predicate IsSuccessful(code: int) {
    200 <= code <= 299
  }

  function Sum(s: seq<ChunkSize>): nat {
    if s == [] then 0 else Sum(s[..|s| - 1]) + s[|s| - 1]
  }

  /** The Float fraction the loop reports, as a real: `bytes / total` when the total is known. */
  function Fraction(bytes: int, total: int): real {
    if total > 0 then bytes as real / total as real else 0.0
  }

  predicate IsDownloadedIn(files: map<string, nat>, m: WhisperModel) {
    m.fileName in files && files[m.fileName] > 0
  }

  /** `getModelPath`: the path whenever the file exists, whatever its length. */
  function ModelPathIn(files: map<string, nat>, m: WhisperModel): Option<string> {
    if m.fileName in files then Some(ModelsDirectory + "/" + m.fileName) else None
  }

  function ErrorRecord(m: WhisperModel): ModelDownloadProgress {
    ModelDownloadProgress(m.name, 0.0, 0, m.size, Error)
  }

  /** The record written after the chunks read so far. */
  function ChunkRecord(name: string, read: seq<ChunkSize>, total: int): ModelDownloadProgress {
    ModelDownloadProgress(name, Fraction(Sum(read), total), Sum(read), total, Downloading)
  }

  /** The records the read loop writes: after each chunk, the bytes read so far. */
  function StreamUpdates(name: string, chunks: seq<ChunkSize>, total: int): (r: seq<ModelDownloadProgress>)
    ensures |r| == |chunks|
  {
    if chunks == [] then []
    else StreamUpdates(name, chunks[..|chunks| - 1], total) + [ChunkRecord(name, chunks, total)]
  }

  /** Every record one `downloadModel` call writes, in order. */
  function DownloadUpdates(files: map<string, nat>, m: WhisperModel, t: Transfer): (r: seq<ModelDownloadProgress>)
    ensures |r| >= 1
  {
    if m.fileName in files then
      [ModelDownloadProgress(m.name, 1.0, m.size, m.size, Downloaded)]
    else
      [ModelDownloadProgress(m.name, 0.0, 0, m.size, Downloading)] +
      match t
      case CallFailed => [ErrorRecord(m)]
      case Answered(code, body) =>
        if !IsSuccessful(code) || body.None? then [ErrorRecord(m)]
        else
          var b := body.value;
          StreamUpdates(m.name, b.chunks, b.contentLength) +
          if b.streamFails then [ErrorRecord(m)]
          else [ModelDownloadProgress(m.name, 1.0, b.contentLength, b.contentLength, Downloaded)]
  }

  /** The result of `downloadModel`. */
  predicate DownloadSucceeds(files: map<string, nat>, m: WhisperModel, t: Transfer) {
    || m.fileName in files
    || (t.Answered? && IsSuccessful(t.code) && t.body.Some? && !t.body.value.streamFails)
  }

  /** The models directory after `downloadModel`: an opened body creates the file and it keeps what was written. */
  function FilesAfterDownload(files: map<string, nat>, m: WhisperModel, t: Transfer): map<string, nat> {
    if m.fileName !in files && t.Answered? && IsSuccessful(t.code) && t.body.Some? then
      files[m.fileName := Sum(t.body.value.chunks)]
    else files
  }

  /**
   * `r` lists `models[idx[0]], models[idx[1]], …` for strictly increasing
   * positions `idx`, which are exactly the positions of downloaded entries:
   * the order-preserving selection `filter` makes, each entry kept once.
   */
  predicate SelectsInOrder(files: map<string, nat>, models: seq<WhisperModel>, r: seq<WhisperModel>, idx: seq<nat>) {
    && |idx| == |r|
    && (forall k :: 0 <= k < |idx| ==> idx[k] < |models| && r[k] == models[idx[k]])
    && (forall k, l :: 0 <= k < l < |idx| ==> idx[k] < idx[l])
    && (forall i :: 0 <= i < |models| ==> (i in idx <==> IsDownloadedIn(files, models[i])))
  }

  /** `getDownloadedModels`: the given entries whose file exists and is non-empty, in order. */
  function DownloadedModels(files: map<string, nat>, models: seq<WhisperModel>): (r: seq<WhisperModel>)
    ensures forall m :: m in r <==> m in models && IsDownloadedIn(files, m)
    ensures |r| <= |models|
    ensures exists idx :: SelectsInOrder(files, models, r, idx)
  {
    if models == [] then
      assert SelectsInOrder(files, models, [], []);
      []
    else
      var init := models[..|models| - 1];
      var rest := DownloadedModels(files, init);
      var r := if IsDownloadedIn(files, Last(models)) then rest + [Last(models)] else rest;
      assert exists idx :: SelectsInOrder(files, models, r, idx) by {
        var idx0 :| SelectsInOrder(files, init, rest, idx0);
        SelectionExtends(files, models, rest, idx0);
      }
      r
  }

  /** A selection of all but the last entry extends to one of all entries. */
  lemma SelectionExtends(files: map<string, nat>, models: seq<WhisperModel>, rest: seq<WhisperModel>, idx0: seq<nat>)
    requires models != [] && SelectsInOrder(files, models[..|models| - 1], rest, idx0)
    ensures var n := |models| - 1;
      if IsDownloadedIn(files, models[n]) then SelectsInOrder(files, models, rest + [models[n]], idx0 + [n])
      else SelectsInOrder(files, models, rest, idx0)
  {
    var n := |models| - 1;
    assert forall i :: 0 <= i < n ==> models[..n][i] == models[i];
    if IsDownloadedIn(files, models[n]) {
      var r, idx := rest + [models[n]], idx0 + [n];
      assert forall k :: 0 <= k < |idx0| ==> idx[k] == idx0[k] && r[k] == rest[k];
      assert n !in idx0;
    } else {
      assert n !in idx0;
    }
  }

  /** The length a catalog entry occupies: its file's length, or 0 when absent. */
  function LengthIn(files: map<string, nat>, m: WhisperModel): nat {
    if m.fileName in files then files[m.fileName] else 0
  }

  /** The reference sum of `getTotalStorageUsed`. */
  function StorageUsed(files: map<string, nat>, models: seq<WhisperModel>): nat {
    if models == [] then 0 else StorageUsed(files, models[..|models| - 1]) + LengthIn(files, Last(models))
  }

  class WhisperModelDownloadService {
    /** `_downloadProgress`: the latest record per model name. */
    var progress: map<string, ModelDownloadProgress>
    /** The files of the models directory and their lengths. */
    var files: map<string, nat>
    /** Every progress record written, oldest first. */
    ghost var updates: seq<ModelDownloadProgress>
    /** HTTP requests executed. */
    ghost var networkCalls: nat

    constructor (existing: map<string, nat>)
      ensures progress == map[] && files == existing && updates == [] && networkCalls == 0
    {
      progress := map[];
      files := existing;
      updates := [];
      networkCalls := 0;
    }

    /** `updateProgress`: replace the record of one model; every other entry stays. */
    method UpdateProgress(modelName: string, status: ModelDownloadStatus, fraction: real,
                          bytesDownloaded: int, totalBytes: int)
      modifies this`progress, this`updates
      ensures var rec := ModelDownloadProgress(modelName, fraction, bytesDownloaded, totalBytes, status);
        progress == old(progress)[modelName := rec] && updates == old(updates) + [rec]
    {
      var rec := ModelDownloadProgress(modelName, fraction, bytesDownloaded, totalBytes, status);
      progress := progress[modelName := rec];
      updates := updates + [rec];
    }

    /** `downloadModel`. */
    method DownloadModel(model: WhisperModel, transfer: Transfer) returns (ok: bool)
      modifies this
      ensures ok == DownloadSucceeds(old(files), model, transfer)
      ensures files == FilesAfterDownload(old(files), model, transfer)
      ensures updates == old(updates) + DownloadUpdates(old(files), model, transfer)
      ensures progress == old(progress)[model.name := Last(DownloadUpdates(old(files), model, transfer))]
      ensures networkCalls == old(networkCalls) + if model.fileName in old(files) then 0 else 1
    {
      if model.fileName in files {
        PresentFileShortCircuits(files, model, transfer);
        UpdateProgress(model.name, Downloaded, 1.0, model.size, model.size);
        return true;
      }
      UpdateProgress(model.name, Downloading, 0.0, 0, model.size);
      networkCalls := networkCalls + 1;
      // the call throws, the response is not 2xx, or it has no body
      if transfer.CallFailed? || !IsSuccessful(transfer.code) || transfer.body.None? {
        RefusedUpdates(old(files), model, transfer);
        UpdateProgress(model.name, Error, 0.0, 0, model.size);
        return false;
      }
      var body := transfer.body.value;
      StreamedUpdates(old(files), model, transfer);
      WriteBody(model, body);
      if body.streamFails {
        UpdateProgress(model.name, Error, 0.0, 0, model.size);
        return false;
      }
      UpdateProgress(model.name, Downloaded, 1.0, body.contentLength, body.contentLength);
      ok := true;
    }

    /**
     * The read loop of `downloadModel`: open the file, then per chunk add
     * its size to the counter, write it, and record the progress.
     */
    method WriteBody(model: WhisperModel, body: Body)
      modifies this`files, this`progress, this`updates
      ensures files == old(files)[model.fileName := Sum(body.chunks)]
      ensures updates == old(updates) + StreamUpdates(model.name, body.chunks, body.contentLength)
      ensures body.chunks == [] ==> progress == old(progress)
      ensures body.chunks != [] ==> progress == old(progress)[model.name := Last(updates)]
    {
      var totalBytes := body.contentLength;
      files := files[model.fileName := 0];
      var bytesRead: nat := 0;
      var i := 0;
      while i < |body.chunks|
        invariant 0 <= i <= |body.chunks|
        invariant bytesRead == Sum(body.chunks[..i])
        invariant files == old(files)[model.fileName := bytesRead]
        invariant updates == old(updates) + StreamUpdates(model.name, body.chunks[..i], totalBytes)
        invariant i == 0 ==> progress == old(progress)
        invariant i > 0 ==> progress == old(progress)[model.name := Last(updates)]
      {
        var read := body.chunks[i];
        assert body.chunks[..i + 1][..i] == body.chunks[..i];
        bytesRead := bytesRead + read;
        files := files[model.fileName := bytesRead];
        assert bytesRead == Sum(body.chunks[..i + 1]);
        UpdateProgress(model.name, Downloading, Fraction(bytesRead, totalBytes), bytesRead, totalBytes);
        StreamUpdatesExtend(model.name, body.chunks, totalBytes, i);
        i := i + 1;
      }
      assert body.chunks[..i] == body.chunks;
    }

    /** `isModelDownloaded`: the file exists and is not empty. */
    function IsModelDownloaded(model: WhisperModel): (b: bool)
      reads this
      ensures b <==> model.fileName in files && files[model.fileName] > 0
      ensures b ==> ModelPathIn(files, model).Some?
    {
      IsDownloadedIn(files, model)
    }

    /** `getModelPath`. */
    function GetModelPath(model: WhisperModel): (path: Option<string>)
      reads this
      ensures path.Some? <==> model.fileName in files
      ensures path.Some? ==> path.value == ModelsDirectory + "/" + model.fileName
    {
      ModelPathIn(files, model)
    }

    /** `deleteModel`; `deletes` is what the file system's delete reports. */
    method DeleteModel(model: WhisperModel, deletes: bool) returns (r: bool)
      modifies this
      ensures model.fileName !in old(files) ==>
        r && files == old(files) && progress == old(progress) && updates == old(updates)
      ensures model.fileName in old(files) ==> r == deletes
      ensures model.fileName in old(files) && deletes ==>
        var rec := ModelDownloadProgress(model.name, 0.0, 0, model.size, NotDownloaded);
        files == old(files) - {model.fileName} && progress == old(progress)[model.name := rec]
        && updates == old(updates) + [rec]
      ensures model.fileName in old(files) && !deletes ==>
        files == old(files) && progress == old(progress) && updates == old(updates)
      ensures networkCalls == old(networkCalls)
    {
      if model.fileName in files {
        if deletes {
          files := files - {model.fileName};
          UpdateProgress(model.name, NotDownloaded, 0.0, 0, model.size);
        }
        r := deletes;
      } else {
        r := true;
      }
    }

    /** `getDownloadedModels`: the catalog filtered by `isModelDownloaded`, in catalog order. */
    function GetDownloadedModels(): (r: seq<WhisperModel>)
      reads this
      ensures forall m :: m in r <==> m in AvailableModels && IsModelDownloaded(m)
      ensures exists idx :: SelectsInOrder(files, AvailableModels, r, idx)
    {
      DownloadedModels(files, AvailableModels)
    }

    /** `getTotalStorageUsed`: the lengths of the catalog's existing files, added up in catalog order. */
    method GetTotalStorageUsed() returns (totalSize: nat)
      ensures totalSize == StorageUsed(files, AvailableModels)
    {
      totalSize := 0;
      var models := AvailableModels;
      for i := 0 to |models|
        invariant totalSize == StorageUsed(files, models[..i])
      {
        var model := models[i];
        assert models[..i + 1][..i] == models[..i];
        if model.fileName in files {
          totalSize := totalSize + files[model.fileName];
        }
      }
      assert models[..|models|] == models;
    }
  }

  /** One more chunk read adds one record, for the bytes read so far. */
  lemma StreamUpdatesExtend(name: string, chunks: seq<ChunkSize>, total: int, i: nat)
    requires i < |chunks|
    ensures StreamUpdates(name, chunks[..i + 1], total)
         == StreamUpdates(name, chunks[..i], total) + [ChunkRecord(name, chunks[..i + 1], total)]
  {
    assert chunks[..i + 1][..i] == chunks[..i];
  }

  /** The k-th record of the loop is the one for the first k + 1 chunks. */
  lemma {:induction false} StreamUpdatesAt(name: string, chunks: seq<ChunkSize>, total: int, k: nat)
    requires k < |chunks|
    ensures StreamUpdates(name, chunks, total)[k] == ChunkRecord(name, chunks[..k + 1], total)
  {
    var init := chunks[..|chunks| - 1];
    if k < |chunks| - 1 {
      StreamUpdatesAt(name, init, total, k);
      assert init[..k + 1] == chunks[..k + 1];
    } else {
      assert chunks[..k + 1] == chunks;
    }
  }

  /** A file that already exists short-circuits: one Downloaded(1.0) record of the catalog size, success, nothing written. */
  lemma PresentFileShortCircuits(files: map<string, nat>, m: WhisperModel, t: Transfer)
    requires m.fileName in files
    ensures DownloadSucceeds(files, m, t)
    ensures DownloadUpdates(files, m, t) == [ModelDownloadProgress(m.name, 1.0, m.size, m.size, Downloaded)]
    ensures Last(DownloadUpdates(files, m, t)) == ModelDownloadProgress(m.name, 1.0, m.size, m.size, Downloaded)
    ensures FilesAfterDownload(files, m, t) == files
  {
  }

  /** A call that throws, a non-2xx response or a missing body: the start record, then Error. */
  lemma RefusedUpdates(files: map<string, nat>, m: WhisperModel, t: Transfer)
    requires m.fileName !in files
    requires t.CallFailed? || !IsSuccessful(t.code) || t.body.None?
    ensures DownloadUpdates(files, m, t) == [ModelDownloadProgress(m.name, 0.0, 0, m.size, Downloading), ErrorRecord(m)]
    ensures Last(DownloadUpdates(files, m, t)) == ErrorRecord(m)
  {
  }

  /** A body was opened: the start record, one record per chunk, then Error or Downloaded. */
  lemma StreamedUpdates(files: map<string, nat>, m: WhisperModel, t: Transfer)
    requires m.fileName !in files
    requires t.Answered? && IsSuccessful(t.code) && t.body.Some?
    ensures var b := t.body.value;
      DownloadUpdates(files, m, t)
      == [ModelDownloadProgress(m.name, 0.0, 0, m.size, Downloading)]
         + StreamUpdates(m.name, b.chunks, b.contentLength)
         + [if b.streamFails then ErrorRecord(m)
            else ModelDownloadProgress(m.name, 1.0, b.contentLength, b.contentLength, Downloaded)]
    ensures Last(DownloadUpdates(files, m, t))
         == if t.body.value.streamFails then ErrorRecord(m)
            else ModelDownloadProgress(m.name, 1.0, t.body.value.contentLength, t.body.value.contentLength, Downloaded)
  {
  }

  /** Before the request, Downloading with 0 bytes is recorded. */
  lemma FirstRecordIsStart(files: map<string, nat>, m: WhisperModel, t: Transfer)
    requires m.fileName !in files
    ensures DownloadUpdates(files, m, t)[0] == ModelDownloadProgress(m.name, 0.0, 0, m.size, Downloading)
  {
  }

  /** Every failure ends with Error, 0 bytes, the catalog size; the file keeps what had been written. */
  lemma FailureRecordsError(files: map<string, nat>, m: WhisperModel, t: Transfer)
    requires !DownloadSucceeds(files, m, t)
    ensures Last(DownloadUpdates(files, m, t)) == ErrorRecord(m)
    ensures t.Answered? && IsSuccessful(t.code) && t.body.Some? ==>
      FilesAfterDownload(files, m, t) == files[m.fileName := Sum(t.body.value.chunks)]
    ensures !(t.Answered? && IsSuccessful(t.code) && t.body.Some?) ==> FilesAfterDownload(files, m, t) == files
  {
  }

  /** A completed transfer ends with Downloaded, bytes = total = Content-Length, and the file holds every chunk. */
  lemma CompletionRecordsDownloaded(files: map<string, nat>, m: WhisperModel, t: Transfer)
    requires m.fileName !in files && DownloadSucceeds(files, m, t)
    ensures var cl := t.body.value.contentLength;
      Last(DownloadUpdates(files, m, t)) == ModelDownloadProgress(m.name, 1.0, cl, cl, Downloaded)
    ensures FilesAfterDownload(files, m, t)[m.fileName] == Sum(t.body.value.chunks)
  {
  }

  lemma {:induction false} SumPrefixIncreases(s: seq<ChunkSize>, i: nat, j: nat)
    requires i < j <= |s|
    ensures Sum(s[..i]) < Sum(s[..j])
    decreases j
  {
    assert s[..j][..j - 1] == s[..j - 1];
    if i < j - 1 {
      SumPrefixIncreases(s, i, j - 1);
    }
  }

  /**
   * Inside the loop the k-th record carries the bytes of the first k + 1
   * chunks, its fraction is bytes/total when the total is known and 0
   * otherwise, and the byte count strictly increases from record to record.
   */
  lemma StreamProgressIncreases(name: string, chunks: seq<ChunkSize>, total: int, i: nat, j: nat)
    requires i < j < |chunks|
    ensures var u := StreamUpdates(name, chunks, total);
      && u[i].bytesDownloaded < u[j].bytesDownloaded
      && u[j].bytesDownloaded == Sum(chunks[..j + 1])
      && u[j].progress == (if total > 0 then u[j].bytesDownloaded as real / total as real else 0.0)
  {
    SumPrefixIncreases(chunks, i + 1, j + 1);
    StreamUpdatesAt(name, chunks, total, i);
    StreamUpdatesAt(name, chunks, total, j);
  }

  /**
   * A stream that fails after delivering data leaves a non-empty file, so a
   * later `isModelDownloaded` accepts the partial download.
   */
  lemma PartialFileCountsAsDownloaded(files: map<string, nat>, m: WhisperModel, code: int, b: Body)
    requires m.fileName !in files && IsSuccessful(code) && b.streamFails && b.chunks != []
    ensures !DownloadSucceeds(files, m, Answered(code, Some(b)))
    ensures IsDownloadedIn(FilesAfterDownload(files, m, Answered(code, Some(b))), m)
  {
    SumPrefixIncreases(b.chunks, 0, |b.chunks|);
    assert b.chunks[..|b.chunks|] == b.chunks;
  }

  /**
   * The two existence tests differ: an empty file is not downloaded, yet it
   * has a path and makes `downloadModel` succeed without fetching anything.
   */
  lemma EmptyFileHasPathButIsNotDownloaded(files: map<string, nat>, m: WhisperModel, t: Transfer)
    requires m.fileName in files && files[m.fileName] == 0
    ensures !IsDownloadedIn(files, m)
    ensures ModelPathIn(files, m).Some?
    ensures DownloadSucceeds(files, m, t)
  {
  }

  /** A downloaded model always has a path. */
  lemma DownloadedHasPath(files: map<string, nat>, m: WhisperModel)
    requires IsDownloadedIn(files, m)
    ensures ModelPathIn(files, m) == Some(ModelsDirectory + "/" + m.fileName)
  {
  }

  /** Entries without a non-empty file add nothing: the storage sum is the sum over `getDownloadedModels`. */
  lemma {:induction false} StorageIsSumOverDownloaded(files: map<string, nat>, models: seq<WhisperModel>)
    ensures StorageUsed(files, models) == StorageUsed(files, DownloadedModels(files, models))
    decreases |models|
  {
    if models != [] {
      var init := models[..|models| - 1];
      StorageIsSumOverDownloaded(files, init);
      var rest := DownloadedModels(files, init);
      var m := Last(models);
      assert StorageUsed(files, models) == StorageUsed(files, init) + LengthIn(files, m);
      if IsDownloadedIn(files, m) {
        var r := rest + [m];
        assert r[..|rest|] == rest && Last(r) == m;
        assert StorageUsed(files, r) == StorageUsed(files, rest) + LengthIn(files, m);
      } else {
        assert LengthIn(files, m) == 0;
      }
    }
  }

  /** The directory uses no storage exactly when no catalog entry is downloaded. */
  lemma {:induction false} NoStorageIffNoneDownloaded(files: map<string, nat>, models: seq<WhisperModel>)
    ensures StorageUsed(files, models) == 0 <==> DownloadedModels(files, models) == []
    decreases |models|
  {
    if models != [] {
      NoStorageIffNoneDownloaded(files, models[..|models| - 1]);
    }
  }
}
