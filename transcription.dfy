/**
 * The transcription orchestrator: resolve the selected model, make sure it
 * is on disk, load it into the engine, and run audio through it; plus model
 * switching and teardown. Its own state is `isInitialized` and
 * `currentModel`; the engine, the model store and the preference are its
 * collaborators, and the network, the audio file, its metadata, native
 * loading, inference and the clock are inputs.
 */
module Transcription {
  import opened Util
  import opened WhisperModels
  import opened ModelDownload
  import opened WhisperNative
  import opened WhisperPreferences
  import opened AudioRecordings
  import AudioProcessor
  import KotlinText

  /** The placeholder confidence every result carries. */
  const Confidence: real := 0.95

  /** The catalog entry a preference names, or "base" when the name is not in the catalog. */
  function ResolveModel(selected: string): (m: WhisperModel)
    ensures m in AvailableModels
    ensures Find(AvailableModels, selected).Some? ==> m == Find(AvailableModels, selected).value
    ensures Find(AvailableModels, selected).None? ==> m.name == "base" && m == Base
  {
    match Find(AvailableModels, selected)
    case Some(m) => m
    case None => BaseIsInCatalog(); Find(AvailableModels, "base").value
  }

  /** Every catalog name resolves to its own entry. */
  lemma ResolveCatalogName(i: nat)
    requires i < |AvailableModels|
    ensures ResolveModel(AvailableModels[i].name) == AvailableModels[i]
  {
    FindCatalogEntry(i);
  }

  /** The models directory once `initializeWhisper` made sure the model is there. */
  function FilesAfterEnsure(files: map<string, nat>, m: WhisperModel, t: Transfer): map<string, nat> {
    if IsDownloadedIn(files, m) then files else FilesAfterDownload(files, m, t)
  }

  /** Whether the download step let `initializeWhisper` continue. */
  predicate EnsureSucceeds(files: map<string, nat>, m: WhisperModel, t: Transfer) {
    IsDownloadedIn(files, m) || DownloadSucceeds(files, m, t)
  }

  /** Once the download step succeeds the model file exists, so the null-path failure cannot happen. */
  lemma PathPresentAfterEnsure(files: map<string, nat>, m: WhisperModel, t: Transfer)
    requires EnsureSucceeds(files, m, t)
    ensures ModelPathIn(FilesAfterEnsure(files, m, t), m).Some?
  {
  }

  /** `currentModel?.name ?: "unknown"`. */
  function ModelUsed(current: Option<WhisperModel>): string {
    match current
    case Some(m) => m.name
    case None => "unknown"
  }

  class WhisperTranscriptionService {
    const engine: WhisperEngine
    const store: WhisperModelDownloadService
    const preferences: WhisperPreferencesManager
    var isInitialized: bool
    var currentModel: Option<WhisperModel>

    /** The two flags move together, and a current model is a catalog entry. */
    ghost predicate Valid()
      reads this, engine
    {
      && engine.Valid()
      && (isInitialized <==> currentModel.Some?)
      && (currentModel.Some? ==> currentModel.value in AvailableModels)
    }

    constructor (engine: WhisperEngine, store: WhisperModelDownloadService, preferences: WhisperPreferencesManager)
      requires engine.Valid()
      ensures Valid() && !isInitialized && currentModel.None?
      ensures this.engine == engine && this.store == store && this.preferences == preferences
    {
      this.engine := engine;
      this.store := store;
      this.preferences := preferences;
      isInitialized := false;
      currentModel := None;
    }

    /**
     * `initializeWhisper`: download the resolved model if it is not
     * downloaded, then load it; the flags change only after the native
     * context was built.
     */
    method InitializeWhisper(transfer: Transfer, loads: bool) returns (ok: bool)
      requires Valid()
      modifies this, engine, store
      ensures Valid()
      ensures var m := ResolveModel(old(preferences.GetSelectedModel()));
        var files := old(store.files);
        var path := ModelPathIn(FilesAfterEnsure(files, m, transfer), m);
        && store.files == FilesAfterEnsure(files, m, transfer)
        && store.networkCalls == old(store.networkCalls) + (if m.fileName in files then 0 else 1)
        && (IsDownloadedIn(files, m) ==> store.updates == old(store.updates) && store.progress == old(store.progress))
        && (!IsDownloadedIn(files, m) ==>
              store.updates == old(store.updates) + DownloadUpdates(files, m, transfer)
              && store.progress == old(store.progress)[m.name := Last(DownloadUpdates(files, m, transfer))])
        && ok == (EnsureSucceeds(files, m, transfer) && path.Some? && loads)
        && (EnsureSucceeds(files, m, transfer) && path.Some? ==>
              engine.context == (if loads then path else None)
              && engine.liveContexts == old(engine.liveContexts) + (if loads then 1 else 0))
        && (!(EnsureSucceeds(files, m, transfer) && path.Some?) ==>
              engine.context == old(engine.context) && engine.liveContexts == old(engine.liveContexts))
        && (ok ==> isInitialized && currentModel == Some(m))
        && (!ok ==> isInitialized == old(isInitialized) && currentModel == old(currentModel))
    {
      var selectedModelName := preferences.GetSelectedModel();
      var selectedModel := ResolveModel(selectedModelName);
      if !store.IsModelDownloaded(selectedModel) {
        var downloadSuccess := store.DownloadModel(selectedModel, transfer);
        if !downloadSuccess {
          return false;
        }
      }
      var modelPath := store.GetModelPath(selectedModel);
      if modelPath.None? {
        return false;
      }
      var initSuccess := engine.InitializeWhisper(modelPath.value, loads);
      if !initSuccess {
        return false;
      }
      isInitialized := true;
      currentModel := Some(selectedModel);
      ok := true;
    }

    /**
     * `transcribeAudioFile`. The ghost results say how far it got: whether
     * the file was converted and whether the engine was asked.
     */
    method TranscribeAudioFile(file: Option<seq<AudioProcessor.Byte>>, meta: AudioProcessor.Metadata,
                               inference: Inference, startTime: int, endTime: int)
      returns (r: Option<TranscriptionResult>, ghost converted: bool, ghost inferred: bool)
      requires Valid()
      ensures !isInitialized ==> r.None? && !converted && !inferred
      ensures converted == isInitialized
      ensures inferred <==> isInitialized && file.Some? && AudioProcessor.DecodeWav(file.value).Some?
      ensures var text := TranscriptText(engine.context, inference);
        r.Some? <==> inferred && text != ""
      ensures r.Some? ==>
        && r.value.text == KotlinText.Trim(TranscriptText(engine.context, inference))
        && r.value.confidence == Confidence
        && r.value.processingTime == endTime - startTime
        && r.value.modelUsed == currentModel.value.name
    {
      converted, inferred := false, false;
      if !isInitialized {
        return None, converted, inferred;
      }
      converted := true;
      var audioData := AudioProcessor.ConvertAudioForWhisper(file);
      if audioData.None? {
        return None, converted, inferred;
      }
      var sampleRate := AudioProcessor.GetAudioSampleRate(meta);
      inferred := true;
      var transcriptionText := engine.TranscribeAudio(audioData.value, sampleRate, inference);
      var processingTime := endTime - startTime;
      if |transcriptionText| > 0 {
        r := Some(TranscriptionResult(KotlinText.Trim(transcriptionText), Confidence, processingTime,
                                      ModelUsed(currentModel)));
      } else {
        r := None;
      }
    }

    /**
     * `switchModel`: an unknown or not-downloaded model fails with no side
     * effect; otherwise tear down, write the preference, and initialize
     * again, which then loads the requested model without downloading.
     */
    method SwitchModel(modelName: string, transfer: Transfer, loads: bool) returns (ok: bool)
      requires Valid()
      modifies this, engine, store, preferences
      ensures Valid()
      ensures var target := Find(AvailableModels, modelName);
        target.None? || !IsDownloadedIn(old(store.files), target.value) ==>
          && !ok
          && isInitialized == old(isInitialized) && currentModel == old(currentModel)
          && unchanged(engine) && unchanged(store) && unchanged(preferences)
      ensures var target := Find(AvailableModels, modelName);
        target.Some? && IsDownloadedIn(old(store.files), target.value) ==>
          && preferences.stored == Some(modelName)
          && ok == loads
          && engine.context == (if loads then ModelPathIn(old(store.files), target.value) else None)
          && engine.liveContexts
             == old(engine.liveContexts) - (if old(engine.context).Some? then 1 else 0) + (if loads then 1 else 0)
          && (ok ==> isInitialized && currentModel == target)
          && (!ok ==> !isInitialized && currentModel.None?)
          && store.files == old(store.files) && store.networkCalls == old(store.networkCalls)
          && store.updates == old(store.updates) && store.progress == old(store.progress)
    {
      var newModel := Find(AvailableModels, modelName);
      if newModel.None? {
        return false;
      }
      if !store.IsModelDownloaded(newModel.value) {
        return false;
      }
      Cleanup();
      preferences.SetSelectedModel(modelName);
      assert ResolveModel(modelName) == newModel.value;
      ok := InitializeWhisper(transfer, loads);
    }

    /** `cleanup`: free the engine and forget the model; calling it again changes nothing. */
    method Cleanup()
      requires Valid()
      modifies this, engine
      ensures Valid()
      ensures !isInitialized && currentModel.None? && engine.context.None?
      ensures engine.liveContexts == old(engine.liveContexts) - if old(engine.context).Some? then 1 else 0
    {
      engine.Cleanup();
      isInitialized := false;
      currentModel := None;
    }

    /** `isReady`: both the service's flag and the engine's context. */
    function IsReady(): (b: bool)
      reads this, engine
      ensures b <==> isInitialized && engine.context.Some?
      ensures Valid() && b ==> currentModel.Some? && engine.liveContexts >= 1
    {
      isInitialized && engine.IsInitialized()
    }

    /** `getCurrentModel()`: in a valid state, a catalog entry exactly while initialized. */
    function GetCurrentModel(): (m: Option<WhisperModel>)
      reads this, engine
      ensures Valid() ==> (m.Some? <==> isInitialized) && (m.Some? ==> m.value in AvailableModels)
    {
      currentModel
    }
  }

  /** A ready service has a current model from the catalog, and the engine holds a context. */
  lemma ReadyHasModel(s: WhisperTranscriptionService)
    requires s.Valid() && s.IsReady()
    ensures s.GetCurrentModel().Some? && s.GetCurrentModel().value in AvailableModels
    ensures s.engine.context.Some?
  {
  }
}
